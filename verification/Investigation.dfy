/** The investigation graph: the commander's plan, the routing, and what the specialists hand back. */
module Investigation {
  import opened Options
  import Text

  const MAX_HOPS := 4
  const ENOUGH_EVIDENCE := 1
  const MAX_DURATION := 600.0
  const OBS_MAX_ITEMS: nat := 20

  datatype Kind = Observability | Knowledge | Code

  datatype Action = Visit(kind: Kind) | Fanout | Synthesize | Escalate

  datatype Reason = MaxHops | MaxDuration | AgentFailure | DependencyFailure

  datatype Plan = Plan(next: Action, reason: Option<Reason>)

  /** One piece of evidence: a dictionary with its collector, or an older prefixed string. */
  datatype Item = Structured(collector: string, detail: Detail) | Legacy(text: string)

  datatype Detail = Detail(service: string, path: string, version: string, summary: string, source: string)

  /** When the run began: not given, not a readable time, or a time in seconds. */
  datatype Started = Missing | Unreadable | At(time: real)

  datatype State = State(incident: string, service: string, scenario: string, hops: int, next: Option<Action>,
                         reason: Option<Reason>, started: Started, evidence: seq<Item>, failedSteps: seq<string>)

  // ----- reading the state ----------------------------------------------------------------

  function Alias(name: string): Option<Kind> {
    if name == "observability" || name == "obs" then Some(Observability)
    else if name == "knowledge" || name == "kb-stub" || name == "kb" then Some(Knowledge)
    else if name == "code" then Some(Code)
    else None
  }

  function BeforeColon(s: string): string {
    if s == [] || s[0] == ':' then [] else [s[0]] + BeforeColon(s[1..])
  }

  /** What stands before the first colon. */
  lemma {:induction false} BeforeColonExactly(s: string)
    ensures BeforeColon(s) <= s && ':' !in BeforeColon(s)
    ensures |BeforeColon(s)| < |s| ==> s[|BeforeColon(s)|] == ':'
  {
    if s != [] && s[0] != ':' {
      BeforeColonExactly(s[1..]);
    }
  }

  function KindOf(item: Item): Option<Kind> {
    match item
    case Structured(collector, _) => Alias(Text.Lower(Text.Strip(collector)))
    case Legacy(text) => Alias(BeforeColon(text))
  }

  /** Whose evidence an item is, by its collector or, for an older one, by what stands before its first colon. */
  lemma KindsExactly(item: Item)
    ensures var name := match item
                        case Structured(collector, _) => Text.Lower(Text.Strip(collector))
                        case Legacy(text) => BeforeColon(text);
            && (KindOf(item) == Some(Observability) <==> name in {"observability", "obs"})
            && (KindOf(item) == Some(Knowledge) <==> name in {"knowledge", "kb", "kb-stub"})
            && (KindOf(item) == Some(Code) <==> name == "code")
  {
    hide Text.Strip;
    hide Text.Lower;
    hide BeforeColon;
  }

  function Kinds(evidence: seq<Item>): set<Kind> {
    set item | item in evidence && KindOf(item).Some? :: KindOf(item).value
  }

  function FailedNames(steps: seq<string>): set<string> {
    set step | step in steps :: Text.Lower(Text.Strip(step))
  }

  function NameOf(kind: Kind): string {
    match kind case Observability => "observability" case Knowledge => "knowledge" case Code => "code"
  }

  // ----- the plan -------------------------------------------------------------------------

  function FirstSpecialist(scenario: string): Action {
    if scenario == "dependency_failure" then Escalate
    else if scenario == "db_exhaustion" then Fanout
    else if scenario == "bad_deployment" then Visit(Code)
    else if scenario in {"latency_spike", "memory_leak", "queue_backlog"} then Visit(Observability)
    else Visit(Knowledge)
  }

  /** Who starts on a scenario. */
  lemma StartsExactly(scenario: string)
    ensures FirstSpecialist(scenario) == Escalate <==> scenario == "dependency_failure"
    ensures FirstSpecialist(scenario) == Fanout <==> scenario == "db_exhaustion"
    ensures FirstSpecialist(scenario) == Visit(Code) <==> scenario == "bad_deployment"
    ensures FirstSpecialist(scenario) == Visit(Observability)
       <==> scenario in {"latency_spike", "memory_leak", "queue_backlog"}
    ensures FirstSpecialist(scenario) == Visit(Knowledge)
       <==> scenario !in {"dependency_failure", "db_exhaustion", "bad_deployment", "latency_spike", "memory_leak",
                          "queue_backlog"}
  {
  }

  predicate EnoughEvidence(scenario: string, evidence: seq<Item>) {
    if scenario == "db_exhaustion" then {Observability, Knowledge} <= Kinds(evidence)
    else |evidence| >= ENOUGH_EVIDENCE
  }

  predicate Exceeded(started: Started, now: real) {
    started.At? && now - started.time > MAX_DURATION
  }

  /** A specialist the plan still needs has already failed. */
  predicate FailureBlocks(specialist: Action, failed: set<string>, kinds: set<Kind>) {
    match specialist
    case Fanout => (Observability !in kinds && NameOf(Observability) in failed)
                   || (Knowledge !in kinds && NameOf(Knowledge) in failed)
    case Visit(kind) => NameOf(kind) in failed
    case _ => false
  }

  function FanoutOrRemaining(kinds: set<Kind>): Plan {
    if Observability in kinds && Knowledge in kinds then Plan(Synthesize, None)
    else if Observability in kinds then Plan(Visit(Knowledge), None)
    else if Knowledge in kinds then Plan(Visit(Observability), None)
    else Plan(Fanout, None)
  }

  /** The commander's choice; `hops` counts the visit being decided. */
  function NextAction(scenario: string, hops: int, evidence: seq<Item>, started: Started, now: real,
                      failedSteps: seq<string>): Plan {
    var kinds := Kinds(evidence);
    var specialist := FirstSpecialist(scenario);
    if hops > MAX_HOPS then Plan(Escalate, Some(MaxHops))
    else if Exceeded(started, now) then Plan(Escalate, Some(MaxDuration))
    else if EnoughEvidence(scenario, evidence) then Plan(Synthesize, None)
    else if FailureBlocks(specialist, FailedNames(failedSteps), kinds) then Plan(Escalate, Some(AgentFailure))
    else match specialist
      case Escalate => Plan(Escalate, Some(DependencyFailure))
      case Fanout => FanoutOrRemaining(kinds)
      case Visit(kind) => if kind in kinds then Plan(Synthesize, None) else Plan(specialist, None)
      case Synthesize => Plan(Synthesize, None)
  }

  // ----- the nodes ------------------------------------------------------------------------

  /** The starting payload with its defaults filled in. */
  function Intake(s: State, now: real): State {
    s.(incident := if s.incident == [] then "INC-LEARN" else s.incident,
       service := if s.service == [] then "payment" else s.service,
       scenario := if s.scenario == [] then "latency_spike" else s.scenario,
       next := None,
       started := if s.started.Missing? then At(now) else s.started)
  }

  /** What intake fills in, and what it leaves alone. */
  lemma IntakeExactly(s: State, now: real)
    ensures var r := Intake(s, now);
            && r.incident == (if s.incident == "" then "INC-LEARN" else s.incident)
            && r.service == (if s.service == "" then "payment" else s.service)
            && r.scenario == (if s.scenario == "" then "latency_spike" else s.scenario)
            && r.started == (if s.started == Missing then At(now) else s.started) && r.next == None
            && r.hops == s.hops && r.evidence == s.evidence && r.failedSteps == s.failedSteps && r.reason == s.reason
  {
  }

  function CommanderNode(s: State, now: real): State {
    var plan := NextAction(s.scenario, s.hops + 1, s.evidence, s.started, now, s.failedSteps);
    s.(hops := s.hops + 1, next := Some(plan.next), reason := plan.reason)
  }

  /** Where the graph goes after the commander. */
  datatype Route = ToSpecialists(kinds: seq<Kind>) | ToSynthesize | ToEscalate

  function RouteAfterCommander(s: State): Route {
    match s.next
    case None => ToSpecialists([Knowledge])
    case Some(Fanout) => ToSpecialists([Observability, Knowledge])
    case Some(Visit(kind)) => ToSpecialists([kind])
    case Some(Synthesize) => ToSynthesize
    case Some(Escalate) => ToEscalate
  }

  /** Where each decision leads; before the first one, to knowledge. */
  lemma RoutesExactly(s: State)
    ensures RouteAfterCommander(s) == ToSynthesize <==> s.next == Some(Synthesize)
    ensures RouteAfterCommander(s) == ToEscalate <==> s.next == Some(Escalate)
    ensures RouteAfterCommander(s) == ToSpecialists([Observability, Knowledge]) <==> s.next == Some(Fanout)
    ensures forall kind :: RouteAfterCommander(s) == ToSpecialists([kind])
                           <==> s.next == Some(Visit(kind)) || (s.next == None && kind == Knowledge)
  {
  }

  /** What a node adds to the two accumulating fields. */
  datatype Update = Update(evidence: seq<Item>, failed: seq<string>)

  function Merge(s: State, u: Update): State {
    s.(evidence := s.evidence + u.evidence, failedSteps := s.failedSteps + u.failed)
  }

  // ----- the specialists ------------------------------------------------------------------

  /** A tool answer as a specialist sees it: an exception, a refusal, or hits. */
  datatype Answer = Raised | Denied | Hits(hits: seq<Detail>)

  function ItemsFrom(kind: Kind, hits: seq<Detail>): (items: seq<Item>)
    ensures |items| == |hits| && forall i | 0 <= i < |hits| :: items[i] == Structured(NameOf(kind), hits[i])
  {
    seq(|hits|, i requires 0 <= i < |hits| => Structured(NameOf(kind), hits[i]))
  }

  function Report(kind: Kind, hits: seq<Detail>): Update {
    if hits == [] then Update([], [NameOf(kind)]) else Update(ItemsFrom(kind, hits), [])
  }

  function Failure(kind: Kind): Update {
    Update([], [NameOf(kind)])
  }

  function CollectObservability(answer: Answer): Update {
    match answer
    case Hits(hits) => Report(Observability, if |hits| <= OBS_MAX_ITEMS then hits else hits[..OBS_MAX_ITEMS])
    case _ => Failure(Observability)
  }

  /** `wired` is false when neither a retriever nor a gateway was given. */
  function CollectKnowledge(wired: bool, answer: Answer): Update {
    if !wired then Failure(Knowledge)
    else match answer
      case Hits(hits) => Report(Knowledge, hits)
      case _ => Failure(Knowledge)
  }

  function CollectCode(deploys: Answer, search: Answer): Update {
    if deploys.Hits? && search.Hits? then Report(Code, Dedupe(deploys.hits + search.hits)) else Failure(Code)
  }

  function KeyOf(hit: Detail): (string, string, string) {
    (hit.service, hit.path, hit.version)
  }

  function KeysOf(hits: seq<Detail>): set<(string, string, string)> {
    set hit | hit in hits :: KeyOf(hit)
  }

  /** The first hit under each service, path and version. */
  function Dedupe(hits: seq<Detail>): (unique: seq<Detail>) {
    if hits == [] then []
    else
      var front, last := Dedupe(hits[..|hits| - 1]), hits[|hits| - 1];
      if KeyOf(last) in KeysOf(front) then front else front + [last]
  }

  method DedupeCodeHits(hits: seq<Detail>) returns (unique: seq<Detail>)
    ensures unique == Dedupe(hits)
  {
    var seen: set<(string, string, string)> := {};
    unique := [];
    for i := 0 to |hits|
      invariant unique == Dedupe(hits[..i]) && seen == KeysOf(unique)
    {
      assert hits[..i + 1][..i] == hits[..i];
      var key := KeyOf(hits[i]);
      if key in seen {
        continue;
      }
      ghost var before := unique;
      seen := seen + {key};
      unique := unique + [hits[i]];
      KeysOfMore(before, hits[i]);
    }
    assert hits[..|hits|] == hits;
  }

  lemma KeysOfMore(hits: seq<Detail>, hit: Detail)
    ensures KeysOf(hits + [hit]) == KeysOf(hits) + {KeyOf(hit)}
  {
    forall k ensures k in KeysOf(hits + [hit]) <==> k in KeysOf(hits) + {KeyOf(hit)} {
      if k == KeyOf(hit) {
        assert hit in hits + [hit];
      }
      if k in KeysOf(hits) {
        var h :| h in hits && KeyOf(h) == k;
        assert h in hits + [hit];
      }
    }
  }

  predicate DistinctKeys(hits: seq<Detail>) {
    forall i, j | 0 <= i < j < |hits| :: KeyOf(hits[i]) != KeyOf(hits[j])
  }

  /** The hit is in the list, and no hit before it has its key. */
  predicate IsFirst(hits: seq<Detail>, hit: Detail) {
    exists k :: 0 <= k < |hits| && hits[k] == hit && KeyOf(hit) !in KeysOf(hits[..k])
  }

  lemma {:induction false} DedupeKeys(hits: seq<Detail>)
    ensures KeysOf(Dedupe(hits)) == KeysOf(hits) && DistinctKeys(Dedupe(hits)) && (Dedupe(hits) == [] <==> hits == [])
  {
    hide KeyOf;
    if hits != [] {
      var front, last := hits[..|hits| - 1], hits[|hits| - 1];
      DedupeKeys(front);
      assert hits == front + [last];
      KeysOfMore(front, last);
      KeysOfMore(Dedupe(front), last);
      if KeyOf(last) !in KeysOf(Dedupe(front)) {
        assert forall i | 0 <= i < |Dedupe(front)| :: Dedupe(front)[i] in Dedupe(front);
      } else {
        assert hits[0] in hits && KeyOf(last) in KeysOf(front);
      }
    }
  }

  lemma {:induction false} DedupeFirsts(hits: seq<Detail>, i: nat)
    requires i < |Dedupe(hits)|
    ensures IsFirst(hits, Dedupe(hits)[i])
  {
    hide KeyOf;
    var n := |hits| - 1;
    var front := hits[..n];
    if i < |Dedupe(front)| {
      DedupeFirsts(front, i);
      var hit := Dedupe(front)[i];
      hide Dedupe;
      var k :| 0 <= k < |front| && front[k] == hit && KeyOf(hit) !in KeysOf(front[..k]);
      assert front[..k] == hits[..k];
    } else {
      DedupeKeys(front);
    }
  }

  /** Deduplication keeps one hit for every key there was, the first, in order. */
  lemma DedupeMeaning(hits: seq<Detail>)
    ensures var unique := Dedupe(hits);
            && KeysOf(unique) == KeysOf(hits)
            && (unique == [] <==> hits == [])
            && DistinctKeys(unique)
            && forall i | 0 <= i < |unique| :: IsFirst(hits, unique[i])
  {
    DedupeKeys(hits);
    forall i | 0 <= i < |Dedupe(hits)| ensures IsFirst(hits, Dedupe(hits)[i]) {
      DedupeFirsts(hits, i);
    }
  }

  /** Evidence of the specialist's own kind, or its own failure: never both, never neither. */
  predicate OwnReport(kind: Kind, u: Update) {
    || (u.failed == [] && u.evidence != []
        && forall item | item in u.evidence :: item.Structured? && KindOf(item) == Some(kind))
    || (u.evidence == [] && u.failed == [NameOf(kind)])
  }

  lemma LowerFixed(s: string)
    requires s != [] && forall i | 0 <= i < |s| :: 'a' <= s[i] <= 'z'
    ensures Text.Lower(Text.Strip(s)) == s
  {
    assert !Text.IsSpace(s[0]) && !Text.IsSpace(s[|s| - 1]);
    Text.NothingToStrip(s);
  }

  lemma NamesAreFixed(kind: Kind)
    ensures Text.Lower(Text.Strip(NameOf(kind))) == NameOf(kind) && Alias(NameOf(kind)) == Some(kind)
  {
    LowerFixed(NameOf(kind));
  }

  /** What a specialist hands back is what its tools answered, in order: observability the first 20 hits,
      knowledge all of them, code those of both its tools without repeats. */
  lemma CollectsExactly(wired: bool, a: Answer, b: Answer)
    ensures a.Hits? && a.hits != [] ==>
              CollectObservability(a)
              == Update(ItemsFrom(Observability, if |a.hits| <= 20 then a.hits else a.hits[..20]), [])
    ensures wired && a.Hits? && a.hits != [] ==>
              CollectKnowledge(wired, a) == Update(ItemsFrom(Knowledge, a.hits), [])
    ensures a.Hits? && b.Hits? && a.hits + b.hits != [] ==>
              CollectCode(a, b) == Update(ItemsFrom(Code, Dedupe(a.hits + b.hits)), [])
    ensures !a.Hits? || a.hits == [] ==> CollectObservability(a) == Update([], ["observability"])
    ensures !wired || !a.Hits? || a.hits == [] ==> CollectKnowledge(wired, a) == Update([], ["knowledge"])
    ensures !a.Hits? || !b.Hits? || a.hits + b.hits == [] ==> CollectCode(a, b) == Update([], ["code"])
  {
    if a.Hits? && b.Hits? {
      DedupeMeaning(a.hits + b.hits);
    }
    hide Dedupe;
  }

  lemma ReportIsOwn(kind: Kind, hits: seq<Detail>)
    ensures OwnReport(kind, Report(kind, hits)) && OwnReport(kind, Failure(kind))
  {
    NamesAreFixed(kind);
    hide Text.Lower;
    hide NameOf;
    hide Alias;
  }

  /** The specialists' contract, whatever the tools answer. */
  lemma SpecialistsReport(wired: bool, a: Answer, b: Answer)
    ensures OwnReport(Observability, CollectObservability(a))
    ensures OwnReport(Knowledge, CollectKnowledge(wired, a))
    ensures OwnReport(Code, CollectCode(a, b))
    ensures a.Hits? && a.hits != [] ==> CollectObservability(a).failed == []
    ensures a.Hits? && b.Hits? ==> (CollectCode(a, b).failed == [] <==> a.hits + b.hits != [])
  {
    hide OwnReport;
    hide NameOf;
    if a.Hits? {
      ReportIsOwn(Observability, if |a.hits| <= OBS_MAX_ITEMS then a.hits else a.hits[..OBS_MAX_ITEMS]);
      ReportIsOwn(Knowledge, a.hits);
      if b.Hits? {
        DedupeMeaning(a.hits + b.hits);
        ReportIsOwn(Code, Dedupe(a.hits + b.hits));
      }
    }
    ReportIsOwn(Observability, []);
    ReportIsOwn(Knowledge, []);
    ReportIsOwn(Code, []);
  }
}
