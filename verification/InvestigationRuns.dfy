/** Whole runs of the investigation graph, with specialists and clock as arbitrary oracles. */
module InvestigationRuns {
  import opened Collections
  import opened Options
  import opened Investigation
  import Text

  /** The surroundings of one commander visit: the clock, what each specialist would hand back, and in
      which order updates of parallel specialists are merged. */
  datatype Round = Round(now: real, reports: Kind -> Update, swapped: bool)

  type Rounds = nat -> Round

  ghost predicate Contract(rounds: Rounds) {
    forall i, kind :: OwnReport(kind, rounds(i).reports(kind))
  }

  function MergeAll(s: State, kinds: seq<Kind>, reports: Kind -> Update): State
    decreases |kinds|
  {
    if kinds == [] then s else MergeAll(Merge(s, reports(kinds[0])), kinds[1..], reports)
  }

  /** One parallel step: every named specialist runs once, the updates are merged in some order. */
  function SuperStep(s: State, kinds: seq<Kind>, round: Round): State {
    MergeAll(s, if round.swapped && |kinds| == 2 then [kinds[1], kinds[0]] else kinds, round.reports)
  }

  /** A finished run: the commander's choices, the specialists visited, and the last state. */
  datatype Run = Run(plans: seq<Plan>, visited: seq<Kind>, final: State)

  function Measure(s: State): int {
    MAX_HOPS + 1 - s.hops
  }

  lemma MergeAllKeeps(s: State, kinds: seq<Kind>, reports: Kind -> Update)
    ensures var m := MergeAll(s, kinds, reports);
            && m.hops == s.hops && m.next == s.next && m.reason == s.reason
            && m.started == s.started && m.scenario == s.scenario
    decreases |kinds|
  {
    if kinds != [] {
      MergeAllKeeps(Merge(s, reports(kinds[0])), kinds[1..], reports);
    }
  }

  /** The loop from the commander on. It ends because every visit costs a hop and the plan stops when the
      hops run out. */
  function Explore(s: State, rounds: Rounds, i: nat): Run
    decreases Measure(s)
  {
    var s1 := CommanderNode(s, rounds(i).now);
    var plan := Plan(s1.next.value, s1.reason);
    match RouteAfterCommander(s1)
    case ToSpecialists(kinds) =>
      var s2 := SuperStep(s1, kinds, rounds(i));
      MergeAllKeeps(s1, if rounds(i).swapped && |kinds| == 2 then [kinds[1], kinds[0]] else kinds, rounds(i).reports);
      var rest := Explore(s2, rounds, i + 1);
      Run([plan] + rest.plans, kinds + rest.visited, rest.final)
    case _ => Run([plan], [], s1)
  }

  predicate Ended(s: State) {
    s.next == Some(Synthesize) || s.next == Some(Escalate)
  }

  /** From any state and any hop count the graph reaches synthesize or escalate, within as many commander
      visits as hops are left, and always after at least one. */
  lemma {:induction false} AlwaysEnds(s: State, rounds: Rounds, i: nat)
    ensures var run := Explore(s, rounds, i);
            && Ended(run.final)
            && 1 <= |run.plans| <= (if s.hops < MAX_HOPS then Measure(s) else 1)
            && run.final.hops == s.hops + |run.plans|
            && (forall k | 0 <= k < |run.plans| - 1 :: run.plans[k].next.Visit? || run.plans[k].next.Fanout?)
            && run.plans[|run.plans| - 1] == Plan(run.final.next.value, run.final.reason)
    decreases Measure(s)
  {
    hide Kinds;
    hide FirstSpecialist;
    hide EnoughEvidence;
    hide FailureBlocks;
    var s1 := CommanderNode(s, rounds(i).now);
    var route := RouteAfterCommander(s1);
    if route.ToSpecialists? {
      var s2 := SuperStep(s1, route.kinds, rounds(i));
      var order :=
        if rounds(i).swapped && |route.kinds| == 2 then [route.kinds[1], route.kinds[0]] else route.kinds;
      MergeAllKeeps(s1, order, rounds(i).reports);
      hide MergeAll;
      AlwaysEnds(s2, rounds, i + 1);
    }
  }

  /** What the commander decides, exactly, from the hops so far, the clock, the evidence and the failures: out of
      hops or time it escalates; with enough evidence it asks for synthesize; else it sends the specialists of
      the scenario that found nothing yet, unless one of those has failed. */
  lemma PlanExactly(s: State, now: real)
    ensures var plan := PlanAt(s, now);
            var kinds, failed := Kinds(s.evidence), FailedNames(s.failedSteps);
            var late := s.started.At? && now - s.started.time > 600.0;
            var enough := if s.scenario == "db_exhaustion" then Observability in kinds && Knowledge in kinds
                          else s.evidence != [];
            var open := s.hops < 4 && !late && !enough;
            && (plan.reason == Some(MaxHops) <==> s.hops >= 4)
            && (plan.reason == Some(MaxDuration) <==> s.hops < 4 && late)
            && (plan.next == Synthesize <==> s.hops < 4 && !late && enough)
            && (plan.reason == Some(AgentFailure) <==> open && Blocked(s.scenario, kinds, failed))
            && (plan.reason == Some(DependencyFailure) <==> open && s.scenario == "dependency_failure")
            && (plan.next == Escalate <==> plan.reason.Some?)
            && (open && !Blocked(s.scenario, kinds, failed) ==>
                  match s.scenario
                  case "dependency_failure" => true
                  case "db_exhaustion" =>
                    plan.next == if Observability in kinds then Visit(Knowledge)
                                 else if Knowledge in kinds then Visit(Observability) else Fanout
                  case _ => plan.next == Visit(Starter(s.scenario)))
  {
    StartsExactly(s.scenario);
    EvidenceOfKinds(s.evidence);
    hide FirstSpecialist;
    hide Kinds;
    hide FailedNames;
    match s.scenario
    case "dependency_failure" =>
    case "db_exhaustion" =>
    case _ =>
  }

  /** Who alone starts on a scenario that is neither a database's nor a dependency's. */
  function Starter(scenario: string): Kind {
    if scenario == "bad_deployment" then Code
    else if scenario in {"latency_spike", "memory_leak", "queue_backlog"} then Observability
    else Knowledge
  }

  /** A specialist that is still needed has failed. */
  predicate Blocked(scenario: string, kinds: set<Kind>, failed: set<string>) {
    if scenario == "dependency_failure" then false
    else if scenario == "db_exhaustion" then
      (Observability !in kinds && "observability" in failed) || (Knowledge !in kinds && "knowledge" in failed)
    else match Starter(scenario)
      case Observability => "observability" in failed
      case Knowledge => "knowledge" in failed
      case Code => "code" in failed
  }

  lemma EvidenceOfKinds(evidence: seq<Item>)
    ensures evidence == [] ==> Kinds(evidence) == {}
  {
  }

  // ----- a fresh run ----------------------------------------------------------------------

  predicate Pristine(s: State) {
    s.hops == 0 && s.evidence == [] && s.failedSteps == []
  }

  /** The specialists a scenario starts with. */
  function Team(scenario: string): seq<Kind> {
    match FirstSpecialist(scenario)
    case Visit(kind) => [kind]
    case Fanout => [Observability, Knowledge]
    case _ => []
  }

  predicate AllFound(team: seq<Kind>, reports: Kind -> Update) {
    forall kind | kind in team :: reports(kind).failed == []
  }

  /** How a fresh run must end, given the clock at its first two commander visits. */
  function Outcome(s: State, rounds: Rounds): Plan {
    if Exceeded(s.started, rounds(0).now) then Plan(Escalate, Some(MaxDuration))
    else if FirstSpecialist(s.scenario) == Escalate then Plan(Escalate, Some(DependencyFailure))
    else if Exceeded(s.started, rounds(1).now) then Plan(Escalate, Some(MaxDuration))
    else if !AllFound(Team(s.scenario), rounds(0).reports) then Plan(Escalate, Some(AgentFailure))
    else Plan(Synthesize, None)
  }

  lemma FanoutScenario(scenario: string)
    ensures FirstSpecialist(scenario) == Fanout <==> scenario == "db_exhaustion"
    ensures FirstSpecialist(scenario) != Synthesize
  {
  }

  lemma {:induction false} KindsOfOne(evidence: seq<Item>, kind: Kind)
    requires evidence != [] && forall item | item in evidence :: KindOf(item) == Some(kind)
    ensures Kinds(evidence) == {kind}
  {
    hide KindOf;
    assert evidence[0] in evidence;
  }

  lemma KindsConcat(x: seq<Item>, y: seq<Item>)
    ensures Kinds(x + y) == Kinds(x) + Kinds(y)
  {
    hide KindOf;
    forall k ensures k in Kinds(x + y) <==> k in Kinds(x) + Kinds(y) {
      if k in Kinds(x) {
        var item :| item in x && KindOf(item) == Some(k);
        assert item in x + y;
      }
      if k in Kinds(y) {
        var item :| item in y && KindOf(item) == Some(k);
        assert item in x + y;
      }
    }
  }

  /** Kinds and failures a report leaves. */
  lemma ReportReads(kind: Kind, u: Update)
    requires OwnReport(kind, u)
    ensures Kinds(u.evidence) == (if u.failed == [] then {kind} else {})
    ensures FailedNames(u.failed) == (if u.failed == [] then {} else {NameOf(kind)})
    ensures u.failed == [] <==> u.evidence != []
  {
    NamesAreFixed(kind);
    hide KindOf;
    hide NameOf;
    hide Text.Lower;
    if u.evidence != [] {
      KindsOfOne(u.evidence, kind);
    }
  }

  lemma FailedConcat(x: seq<string>, y: seq<string>)
    ensures FailedNames(x + y) == FailedNames(x) + FailedNames(y)
  {
    hide Text.Lower;
    forall n ensures n in FailedNames(x + y) <==> n in FailedNames(x) + FailedNames(y) {
      if n in FailedNames(x) {
        var s :| s in x && Text.Lower(Text.Strip(s)) == n;
        assert s in x + y;
      }
      if n in FailedNames(y) {
        var s :| s in y && Text.Lower(Text.Strip(s)) == n;
        assert s in x + y;
      }
    }
  }

  /** What the second visit finds: the kinds found and the names failed by the team. */
  ghost predicate TeamReported(s: State, team: seq<Kind>, reports: Kind -> Update) {
    && (forall kind :: kind in Kinds(s.evidence) <==> kind in team && reports(kind).failed == [])
    && (forall kind :: NameOf(kind) in FailedNames(s.failedSteps) <==> kind in team && reports(kind).failed != [])
    && (s.evidence == [] <==> forall kind | kind in team :: reports(kind).failed != [])
  }

  lemma NamesDiffer()
    ensures forall a, b :: NameOf(a) == NameOf(b) ==> a == b
  {
    forall a, b | NameOf(a) == NameOf(b) ensures a == b {
      NamesAreFixed(a);
      NamesAreFixed(b);
    }
  }

  lemma MergeFew(s: State, a: Kind, b: Kind, reports: Kind -> Update)
    ensures MergeAll(s, [a], reports) == Merge(s, reports(a))
    ensures MergeAll(s, [a, b], reports) == Merge(Merge(s, reports(a)), reports(b))
  {
    var none: seq<Kind>, one, other, two := [], [a], [b], [a, b];
    assert one[1..] == none && other[1..] == none && two[1..] == other;
    assert MergeAll(Merge(s, reports(a)), none, reports) == Merge(s, reports(a));
    var t := Merge(s, reports(a));
    assert MergeAll(Merge(t, reports(b)), none, reports) == Merge(t, reports(b));
    assert MergeAll(t, other, reports) == Merge(t, reports(b));
    hide Merge;
  }

  lemma OneReported(s: State, kind: Kind, reports: Kind -> Update)
    requires s.evidence == [] && s.failedSteps == [] && OwnReport(kind, reports(kind))
    ensures TeamReported(MergeAll(s, [kind], reports), [kind], reports)
  {
    hide OwnReport;
    hide Kinds;
    hide FailedNames;
    hide NameOf;
    hide MergeAll;
    var u := reports(kind);
    NamesDiffer();
    ReportReads(kind, u);
    MergeFew(s, kind, kind, reports);
    assert [] + u.evidence == u.evidence && [] + u.failed == u.failed;
  }

  lemma TwoReported(s: State, a: Kind, b: Kind, reports: Kind -> Update)
    requires s.evidence == [] && s.failedSteps == [] && a != b
    requires OwnReport(a, reports(a)) && OwnReport(b, reports(b))
    ensures TeamReported(MergeAll(s, [a, b], reports), [a, b], reports)
  {
    hide OwnReport;
    hide Kinds;
    hide FailedNames;
    hide NameOf;
    hide MergeAll;
    var u, v := reports(a), reports(b);
    NamesDiffer();
    ReportReads(a, u);
    ReportReads(b, v);
    MergeFew(s, a, b, reports);
    assert [] + u.evidence == u.evidence && [] + u.failed == u.failed;
    KindsConcat(u.evidence, v.evidence);
    FailedConcat(u.failed, v.failed);
  }

  lemma TeamReports(s: State, scenario: string, round: Round)
    requires s.evidence == [] && s.failedSteps == [] && forall kind :: OwnReport(kind, round.reports(kind))
    requires Team(scenario) != []
    ensures TeamReported(SuperStep(s, Team(scenario), round), Team(scenario), round.reports)
  {
    hide FirstSpecialist;
    hide OwnReport;
    hide TeamReported;
    match FirstSpecialist(scenario)
    case Visit(kind) => OneReported(s, kind, round.reports);
    case Fanout =>
      TwoReported(s, Observability, Knowledge, round.reports);
      TwoReported(s, Knowledge, Observability, round.reports);
      SwapReported(SuperStep(s, [Observability, Knowledge], round), Knowledge, Observability, round.reports);
    case _ =>
  }

  lemma SwapReported(s: State, a: Kind, b: Kind, reports: Kind -> Update)
    ensures TeamReported(s, [a, b], reports) ==> TeamReported(s, [b, a], reports)
  {
    hide Kinds;
    hide FailedNames;
    assert forall kind :: kind in [a, b] <==> kind in [b, a];
  }

  /** The plan at the second visit: synthesize if the whole team found something, else give up. */
  lemma SecondPlan(s: State, reports: Kind -> Update, now: real)
    requires Team(s.scenario) != [] && TeamReported(s, Team(s.scenario), reports)
    requires s.hops < MAX_HOPS && !Exceeded(s.started, now)
    ensures PlanAt(s, now)
         == if AllFound(Team(s.scenario), reports) then Plan(Synthesize, None) else Plan(Escalate, Some(AgentFailure))
  {
    FanoutScenario(s.scenario);
    var team := Team(s.scenario);
    hide Kinds;
    hide FailedNames;
    hide FirstSpecialist;
    hide NameOf;
    match FirstSpecialist(s.scenario)
    case Visit(kind) =>
      assert kind in team;
    case Fanout =>
      assert Observability in team && Knowledge in team;
    case _ =>
  }

  function PlanAt(s: State, now: real): Plan {
    NextAction(s.scenario, s.hops + 1, s.evidence, s.started, now, s.failedSteps)
  }

  /** One turn of the loop. */
  lemma ExploreStep(s: State, rounds: Rounds, i: nat, plan: Plan)
    requires plan == PlanAt(s, rounds(i).now)
    ensures var s1 := s.(hops := s.hops + 1, next := Some(plan.next), reason := plan.reason);
            var run := Explore(s, rounds, i);
            match plan.next
            case Synthesize => run == Run([plan], [], s1)
            case Escalate => run == Run([plan], [], s1)
            case Visit(kind) =>
              var rest := Explore(SuperStep(s1, [kind], rounds(i)), rounds, i + 1);
              run == Run([plan] + rest.plans, [kind] + rest.visited, rest.final)
            case Fanout =>
              var rest := Explore(SuperStep(s1, [Observability, Knowledge], rounds(i)), rounds, i + 1);
              run == Run([plan] + rest.plans, [Observability, Knowledge] + rest.visited, rest.final)
  {
    hide NextAction;
    hide SuperStep;
  }

  predicate EndsWith(s: State, plan: Plan) {
    s.next == Some(plan.next) && s.reason == plan.reason
  }

  /** The second visit ends the run. */
  lemma SecondVisit(s: State, rounds: Rounds, reports: Kind -> Update)
    requires Team(s.scenario) != [] && TeamReported(s, Team(s.scenario), reports) && s.hops < MAX_HOPS
    ensures var run := Explore(s, rounds, 1);
            var plan := if Exceeded(s.started, rounds(1).now) then Plan(Escalate, Some(MaxDuration))
                        else if AllFound(Team(s.scenario), reports) then Plan(Synthesize, None)
                        else Plan(Escalate, Some(AgentFailure));
            && |run.plans| == 1 && run.visited == [] && EndsWith(run.final, plan)
            && run.final.evidence == s.evidence
  {
    var now := rounds(1).now;
    if Exceeded(s.started, now) {
      LatePlan(s, now);
    } else {
      SecondPlan(s, reports, now);
    }
    hide NextAction;
    hide Exceeded;
    hide AllFound;
    hide TeamReported;
    hide Team;
    ExploreStep(s, rounds, 1, PlanAt(s, now));
    hide Explore;
  }

  /** A fresh run, for any scenario, clock and specialists: at most two commander visits; its team is
      visited once, at most once each; it never runs out of hops; and how it ends is decided by the
      clock, the scenario and whether every member of the team found something. Synthesize is reached
      only with evidence of every kind asked for. */
  lemma FreshRun(s: State, rounds: Rounds)
    requires Pristine(s) && Contract(rounds)
    ensures var run := Explore(s, rounds, 0);
            && |run.plans| <= 2
            && EndsWith(run.final, Outcome(s, rounds))
            && run.visited == (if Exceeded(s.started, rounds(0).now) then [] else Team(s.scenario))
            && (forall i, j | 0 <= i < j < |run.visited| :: run.visited[i] != run.visited[j])
            && run.final.reason != Some(MaxHops)
            && (run.final.next == Some(Synthesize) ==>
                  && run.final.evidence != []
                  && forall kind | kind in Team(s.scenario) :: kind in Kinds(run.final.evidence))
  {
    hide Kinds;
    hide FailedNames;
    hide NameOf;
    hide OwnReport;
    FanoutScenario(s.scenario);
    FirstPlan(s, rounds(0).now);
    ExploreStep(s, rounds, 0, PlanAt(s, rounds(0).now));
    hide NextAction;
    hide Explore;
    hide TeamReported;
    hide SuperStep;
    var team := Team(s.scenario);
    if !Exceeded(s.started, rounds(0).now) && team != [] {
      var s1 := s.(hops := s.hops + 1, next := Some(FirstSpecialist(s.scenario)), reason := None);
      var s2 := SuperStep(s1, team, rounds(0));
      SuperStepKeeps(s1, team, rounds(0));
      TeamReports(s1, s.scenario, rounds(0));
      SecondVisit(s2, rounds, rounds(0).reports);
      EvidenceOfTeam(s2, team, rounds(0).reports);
      hide FirstSpecialist;
    }
  }

  /** A run from its starting payload. */
  function Investigate(payload: State, now: real, rounds: Rounds): Run {
    Explore(Intake(payload, now), rounds, 0)
  }

  /** A new investigation, with nothing in its payload but the incident: it starts pristine, its clock starts
      at intake, and all of the above holds of it. */
  lemma NewInvestigation(payload: State, now: real, rounds: Rounds)
    requires Pristine(payload) && payload.started == Missing && Contract(rounds)
    ensures var run := Investigate(payload, now, rounds);
            var first, second := rounds(0).now - now, rounds(1).now - now;
            var scenario := if payload.scenario == [] then "latency_spike" else payload.scenario;
            && |run.plans| <= 2
            && (run.final.next == Some(Synthesize) <==>
                  && FirstSpecialist(scenario) != Escalate
                  && first <= MAX_DURATION && second <= MAX_DURATION
                  && AllFound(Team(scenario), rounds(0).reports))
            && (run.final.next == Some(Synthesize) ==> run.final.evidence != [])
  {
    FreshRun(Intake(payload, now), rounds);
    hide Explore;
    hide FirstSpecialist;
    hide Team;
    hide AllFound;
    hide Kinds;
  }

  lemma EvidenceOfTeam(s: State, team: seq<Kind>, reports: Kind -> Update)
    requires team != [] && TeamReported(s, team, reports)
    ensures AllFound(team, reports) ==> s.evidence != [] && forall kind | kind in team :: kind in Kinds(s.evidence)
  {
    hide Kinds;
    hide FailedNames;
    assert team[0] in team;
  }

  lemma FirstPlan(s: State, now: real)
    requires Pristine(s)
    ensures PlanAt(s, now)
         == if Exceeded(s.started, now) then Plan(Escalate, Some(MaxDuration))
            else if FirstSpecialist(s.scenario) == Escalate then Plan(Escalate, Some(DependencyFailure))
            else Plan(FirstSpecialist(s.scenario), None)
  {
    FanoutScenario(s.scenario);
    assert Kinds(s.evidence) == {} && FailedNames(s.failedSteps) == {};
    hide FirstSpecialist;
    hide NameOf;
  }

  lemma LatePlan(s: State, now: real)
    requires s.hops < MAX_HOPS && Exceeded(s.started, now)
    ensures PlanAt(s, now) == Plan(Escalate, Some(MaxDuration))
  {
  }

  // ----- merge order ----------------------------------------------------------------------

  /** States that differ only in the order their lists were merged. */
  predicate SameButOrder(x: State, y: State) {
    && multiset(x.evidence) == multiset(y.evidence) && multiset(x.failedSteps) == multiset(y.failedSteps)
    && x == y.(evidence := x.evidence, failedSteps := x.failedSteps)
  }

  /** The commander decides the same on states that differ only in merge order. */
  lemma PlanIgnoresOrder(x: State, y: State, now: real)
    requires SameButOrder(x, y)
    ensures SameButOrder(CommanderNode(x, now), CommanderNode(y, now))
    ensures CommanderNode(x, now).next == CommanderNode(y, now).next
  {
    SameMembers(x.evidence, y.evidence);
    SameMembers(x.failedSteps, y.failedSteps);
    assert Kinds(x.evidence) == Kinds(y.evidence);
    assert FailedNames(x.failedSteps) == FailedNames(y.failedSteps);
    hide Kinds;
    hide FailedNames;
    hide FirstSpecialist;
    hide FailureBlocks;
  }

  lemma {:induction false} MergeIgnoresOrder(x: State, y: State, kinds: seq<Kind>, reports: Kind -> Update)
    requires SameButOrder(x, y)
    ensures SameButOrder(MergeAll(x, kinds, reports), MergeAll(y, kinds, reports))
    decreases |kinds|
  {
    if kinds != [] {
      var u := reports(kinds[0]);
      MergeIgnoresOrder(Merge(x, u), Merge(y, u), kinds[1..], reports);
    }
  }

  lemma SwapIgnoresOrder(x: State, a: Kind, b: Kind, reports: Kind -> Update)
    ensures SameButOrder(MergeAll(x, [a, b], reports), MergeAll(x, [b, a], reports))
  {
    MergeFew(x, a, b, reports);
    MergeFew(x, b, a, reports);
    hide MergeAll;
  }

  lemma SuperStepIgnoresOrder(x: State, y: State, kinds: seq<Kind>, p: Round, q: Round)
    requires SameButOrder(x, y) && p.reports == q.reports
    ensures SameButOrder(SuperStep(x, kinds, p), SuperStep(y, kinds, q))
  {
    MergeIgnoresOrder(x, y, kinds, p.reports);
    if |kinds| == 2 {
      assert kinds == [kinds[0], kinds[1]];
      MergeIgnoresOrder(x, y, [kinds[1], kinds[0]], p.reports);
      SwapIgnoresOrder(x, kinds[0], kinds[1], p.reports);
      SwapIgnoresOrder(y, kinds[0], kinds[1], p.reports);
    }
    hide MergeAll;
  }

  /** The same clock and reports at every visit; the merge orders may differ. */
  ghost predicate SameButMergeOrder(p: Rounds, q: Rounds) {
    forall k :: p(k).now == q(k).now && p(k).reports == q(k).reports
  }

  /** A whole run is the same whatever order parallel updates are merged in. */
  lemma {:induction false} RunIgnoresMergeOrder(x: State, y: State, p: Rounds, q: Rounds, i: nat)
    requires SameButOrder(x, y)
    requires SameButMergeOrder(p, q)
    ensures var a, b := Explore(x, p, i), Explore(y, q, i);
            a.plans == b.plans && a.visited == b.visited && SameButOrder(a.final, b.final)
    decreases Measure(x)
  {
    assert p(i).now == q(i).now && p(i).reports == q(i).reports;
    hide SameButMergeOrder;
    hide SameButOrder;
    hide Explore;
    hide PlanAt;
    hide SuperStep;
    var plan := PlanAt(x, p(i).now);
    SamePlan(x, y, p(i).now);
    HopsLeft(x, p(i).now);
    ExploreStep(x, p, i, plan);
    ExploreStep(y, q, i, plan);
    var x1 := x.(hops := x.hops + 1, next := Some(plan.next), reason := plan.reason);
    var y1 := y.(hops := y.hops + 1, next := Some(plan.next), reason := plan.reason);
    StillSameButOrder(x, y, x1, y1, plan);
    match plan.next
    case Synthesize =>
    case Escalate =>
    case Visit(kind) =>
      VisitIgnoresOrder(x1, y1, [kind], p, q, i);
      RunIgnoresMergeOrder(SuperStep(x1, [kind], p(i)), SuperStep(y1, [kind], q(i)), p, q, i + 1);
    case Fanout =>
      var both := [Observability, Knowledge];
      VisitIgnoresOrder(x1, y1, both, p, q, i);
      RunIgnoresMergeOrder(SuperStep(x1, both, p(i)), SuperStep(y1, both, q(i)), p, q, i + 1);
  }

  lemma VisitIgnoresOrder(x: State, y: State, kinds: seq<Kind>, p: Rounds, q: Rounds, i: nat)
    requires SameButOrder(x, y) && p(i).reports == q(i).reports
    ensures SameButOrder(SuperStep(x, kinds, p(i)), SuperStep(y, kinds, q(i)))
    ensures SuperStep(x, kinds, p(i)).hops == x.hops
  {
    hide SameButOrder;
    SuperStepIgnoresOrder(x, y, kinds, p(i), q(i));
    SuperStepKeeps(x, kinds, p(i));
    hide SuperStep;
  }

  lemma StillSameButOrder(x: State, y: State, x1: State, y1: State, plan: Plan)
    requires SameButOrder(x, y)
    requires x1 == x.(hops := x.hops + 1, next := Some(plan.next), reason := plan.reason)
    requires y1 == y.(hops := y.hops + 1, next := Some(plan.next), reason := plan.reason)
    ensures SameButOrder(x1, y1)
  {
  }

  lemma SuperStepKeeps(s: State, kinds: seq<Kind>, round: Round)
    ensures var after := SuperStep(s, kinds, round);
            after.hops == s.hops && after.started == s.started && after.scenario == s.scenario
  {
    MergeAllKeeps(s, if round.swapped && |kinds| == 2 then [kinds[1], kinds[0]] else kinds, round.reports);
  }

  lemma SamePlan(x: State, y: State, now: real)
    requires SameButOrder(x, y)
    ensures PlanAt(x, now) == PlanAt(y, now)
  {
    PlanIgnoresOrder(x, y, now);
    hide NextAction;
  }

  lemma HopsLeft(s: State, now: real)
    ensures PlanAt(s, now).next != Escalate ==> s.hops < MAX_HOPS
  {
    hide Kinds;
    hide FirstSpecialist;
    hide EnoughEvidence;
    hide FailureBlocks;
  }

  // ----- what synthesize receives ---------------------------------------------------------

  /** The commander asks for synthesize only with evidence in hand, and gives no reason with it. */
  lemma SynthesizePlan(s: State, now: real)
    requires PlanAt(s, now).next == Synthesize
    ensures s.evidence != [] && PlanAt(s, now).reason == None
  {
    FanoutScenario(s.scenario);
    hide FirstSpecialist;
    hide KindOf;
    hide FailureBlocks;
  }

  predicate AllStructured(items: seq<Item>) {
    forall i | 0 <= i < |items| :: items[i].Structured?
  }

  lemma {:induction false} MergeKeepsStructured(s: State, kinds: seq<Kind>, reports: Kind -> Update)
    requires AllStructured(s.evidence) && forall kind :: OwnReport(kind, reports(kind))
    ensures AllStructured(MergeAll(s, kinds, reports).evidence)
    decreases |kinds|
  {
    hide KindOf;
    hide NameOf;
    if kinds != [] {
      var u := reports(kinds[0]);
      assert OwnReport(kinds[0], u);
      forall i | 0 <= i < |u.evidence| ensures u.evidence[i].Structured? {
        assert u.evidence[i] in u.evidence;
      }
      MergeKeepsStructured(Merge(s, u), kinds[1..], reports);
    }
  }

  /** What synthesize is handed. */
  predicate Ready(s: State) {
    s.evidence != [] && AllStructured(s.evidence) && s.reason == None
  }

  /** From every state whose evidence is in dictionary form, first attempt or not: if the run gets to
      synthesize, it brings evidence in that form and no reason to escalate. */
  lemma {:induction false} SynthesizeIsReady(s: State, rounds: Rounds, i: nat)
    requires AllStructured(s.evidence) && Contract(rounds)
    requires Explore(s, rounds, i).final.next == Some(Synthesize)
    ensures Ready(Explore(s, rounds, i).final)
    decreases Measure(s)
  {
    hide OwnReport;
    hide AllStructured;
    var plan := PlanAt(s, rounds(i).now);
    HopsLeft(s, rounds(i).now);
    ExploreStep(s, rounds, i, plan);
    if plan.next == Synthesize {
      SynthesizePlan(s, rounds(i).now);
    }
    hide Explore;
    hide PlanAt;
    var s1 := s.(hops := s.hops + 1, next := Some(plan.next), reason := plan.reason);
    if plan.next.Visit? || plan.next.Fanout? {
      var kinds := if plan.next.Visit? then [plan.next.kind] else [Observability, Knowledge];
      MergeKeepsStructured(s1, if rounds(i).swapped && |kinds| == 2 then [kinds[1], kinds[0]] else kinds,
                           rounds(i).reports);
      SuperStepKeeps(s1, kinds, rounds(i));
      SynthesizeIsReady(SuperStep(s1, kinds, rounds(i)), rounds, i + 1);
    }
  }

  // ----- a second attempt -----------------------------------------------------------------

  /** The start of another attempt at the same incident in the same process: the thread still holds what the
      last attempt left, to which the new payload is added; when it began is kept. */
  function Resumed(left: State, payload: State): State {
    payload.(evidence := left.evidence + payload.evidence, failedSteps := left.failedSteps + payload.failedSteps,
             started := if payload.started.Missing? then left.started else payload.started)
  }

  /** When an attempt got to synthesize and broke there, the next one visits nobody: it goes straight to
      synthesize with the evidence of the first, or escalates once the time since the first began is up. */
  lemma RetryAfterSynthesis(payload: State, now: real, rounds: Rounds, now2: real, rounds2: Rounds)
    requires Pristine(payload) && payload.started == Missing && Contract(rounds)
    requires Investigate(payload, now, rounds).final.next == Some(Synthesize)
    ensures var broken := Investigate(payload, now, rounds).final;
            var run := Investigate(Resumed(broken, payload), now2, rounds2);
            && |run.plans| == 1 && run.visited == [] && run.final.evidence == broken.evidence
            && EndsWith(run.final, if rounds2(0).now - now > MAX_DURATION then Plan(Escalate, Some(MaxDuration))
                                   else Plan(Synthesize, None))
  {
    hide Kinds;
    hide FailedNames;
    hide Explore;
    hide FirstSpecialist;
    var start := Intake(payload, now);
    FreshRun(start, rounds);
    FanoutScenario(start.scenario);
    RunKeepsThread(start, rounds, 0);
    var broken := Investigate(payload, now, rounds).final;
    var again := Intake(Resumed(broken, payload), now2);
    hide Outcome;
    hide AllFound;
    assert broken.evidence + [] == broken.evidence;
    assert again.scenario == broken.scenario == start.scenario;
    EnoughForAgain(again, rounds2(0).now);
    ExploreStep(again, rounds2, 0, PlanAt(again, rounds2(0).now));
  }

  lemma EnoughForAgain(s: State, now: real)
    requires s.hops == 0 && s.evidence != [] && forall kind | kind in Team(s.scenario) :: kind in Kinds(s.evidence)
    ensures PlanAt(s, now)
         == if Exceeded(s.started, now) then Plan(Escalate, Some(MaxDuration)) else Plan(Synthesize, None)
  {
    hide Kinds;
    FanoutScenario(s.scenario);
    hide FirstSpecialist;
    if s.scenario == "db_exhaustion" {
      assert Observability in Team(s.scenario) && Knowledge in Team(s.scenario);
    }
  }

  /** A run changes neither scenario nor start time. */
  lemma {:induction false} RunKeepsThread(s: State, rounds: Rounds, i: nat)
    ensures var final := Explore(s, rounds, i).final; final.scenario == s.scenario && final.started == s.started
    decreases Measure(s)
  {
    var plan := PlanAt(s, rounds(i).now);
    HopsLeft(s, rounds(i).now);
    ExploreStep(s, rounds, i, plan);
    hide Explore;
    hide PlanAt;
    var s1 := s.(hops := s.hops + 1, next := Some(plan.next), reason := plan.reason);
    if plan.next.Visit? || plan.next.Fanout? {
      var kinds := if plan.next.Visit? then [plan.next.kind] else [Observability, Knowledge];
      SuperStepKeeps(s1, kinds, rounds(i));
      RunKeepsThread(SuperStep(s1, kinds, rounds(i)), rounds, i + 1);
    }
  }
}
