/** Generating the report: at most two model calls, citations checked against the evidence pack, and low
    confidence never passed off as a finding. */
module RcaGenerate {
  import opened Collections
  import opened Options
  import opened Rca
  import J = Json
  import Text
  import I = Investigation
  import IR = InvestigationRuns

  const CONFIDENCE_THRESHOLD := 0.6
  const MAX_PACK_ITEMS: nat := 8

  datatype PackItem = PackItem(evidenceId: Uuid, source: string, excerpt: string)

  // ----- the evidence pack ----------------------------------------------------------------

  /** Reading an evidence item: its own id, or one derived from the incident, the index and the excerpt;
      its source; and its excerpt after neutralisation. */
  datatype Reader = Reader(idOf: (string, nat, I.Item) -> Uuid, sourceOf: I.Item -> string, excerptOf: I.Item -> string)

  function PackItemOf(reader: Reader, incident: string, index: nat, item: I.Item): PackItem {
    PackItem(reader.idOf(incident, index, item), reader.sourceOf(item), reader.excerptOf(item))
  }

  /** The items from `index` on when there is room for `room` more. */
  function PackFrom(reader: Reader, incident: string, evidence: seq<I.Item>, index: nat, room: nat): seq<PackItem>
    requires index <= |evidence|
    decreases |evidence| - index
  {
    if index == |evidence| || room == 0 then []
    else if !evidence[index].Structured? then PackFrom(reader, incident, evidence, index + 1, room)
    else
      [PackItemOf(reader, incident, index, evidence[index])]
      + PackFrom(reader, incident, evidence, index + 1, room - 1)
  }

  method PackFromGraphEvidence(reader: Reader, incident: string,
                               evidence: seq<I.Item>) returns (items: seq<PackItem>)
    ensures items == PackFrom(reader, incident, evidence, 0, MAX_PACK_ITEMS)
  {
    items := [];
    for index := 0 to |evidence|
      invariant |items| <= MAX_PACK_ITEMS
      invariant items + PackFrom(reader, incident, evidence, index, MAX_PACK_ITEMS - |items|)
             == PackFrom(reader, incident, evidence, 0, MAX_PACK_ITEMS)
    {
      if |items| >= MAX_PACK_ITEMS {
        return;
      }
      if !evidence[index].Structured? {
        continue;
      }
      items := items + [PackItemOf(reader, incident, index, evidence[index])];
    }
  }

  function CountStructured(evidence: seq<I.Item>, index: nat): nat
    requires index <= |evidence|
    decreases |evidence| - index
  {
    if index == |evidence| then 0
    else (if evidence[index].Structured? then 1 else 0) + CountStructured(evidence, index + 1)
  }

  /** The evidence pack holds the first structured items, as many as there are up to the limit. */
  lemma {:induction false} PackSize(reader: Reader, incident: string, evidence: seq<I.Item>, index: nat, room: nat)
    requires index <= |evidence|
    ensures var n := CountStructured(evidence, index);
            |PackFrom(reader, incident, evidence, index, room)| == if n < room then n else room
    decreases |evidence| - index
  {
    hide PackItemOf;
    if index < |evidence| && room > 0 {
      PackSize(reader, incident, evidence, index + 1, if evidence[index].Structured? then room - 1 else room);
    }
  }

  /** The evidence pack synthesize uses: the rows the recorder kept, if any, else the graph's own evidence. */
  function PackFor(reader: Reader, s: I.State, recorded: seq<PackItem>): seq<PackItem> {
    if recorded != [] then FirstOf(recorded, MAX_PACK_ITEMS)
    else PackFrom(reader, KeyOf(s), s.evidence, 0, MAX_PACK_ITEMS)
  }

  /** The incident the ids of graph evidence are derived from. */
  function KeyOf(s: I.State): string {
    if s.incident == [] then "INC-LEARN" else s.incident
  }

  lemma ReadyPackIsNotEmpty(reader: Reader, s: I.State, recorded: seq<PackItem>)
    requires IR.Ready(s)
    ensures 1 <= |PackFor(reader, s, recorded)| <= 8
  {
    PackSize(reader, KeyOf(s), s.evidence, 0, MAX_PACK_ITEMS);
    hide PackFrom;
    assert s.evidence[0].Structured?;
    assert CountStructured(s.evidence, 0) >= 1;
  }

  /** From any start with evidence in dictionary form, a fresh one and a second attempt included, synthesize
      never meets an empty pack, whatever the recorder kept. */
  lemma PackIsNotEmpty(reader: Reader, s: I.State, rounds: IR.Rounds, recorded: seq<PackItem>)
    requires IR.AllStructured(s.evidence) && IR.Contract(rounds)
    requires IR.Explore(s, rounds, 0).final.next == Some(I.Synthesize)
    ensures 1 <= |PackFor(reader, IR.Explore(s, rounds, 0).final, recorded)| <= 8
  {
    hide IR.Explore;
    hide IR.Contract;
    hide PackFor;
    IR.SynthesizeIsReady(s, rounds, 0);
    ReadyPackIsNotEmpty(reader, IR.Explore(s, rounds, 0).final, recorded);
  }

  // ----- one model call -------------------------------------------------------------------

  /** What the model claims, before it is trusted. */
  datatype Output = Output(summary: string, rootCause: string, factors: seq<string>, confidence: real, finding: Finding,
                           citations: seq<Citation>, actions: seq<string>)

  /** How a call ends: a typed answer, an error that is caught and retried (a malformed answer is one), or
      any other exception. */
  datatype Reply = Answer(output: Output, modelId: string, inputTokens: int, outputTokens: int) | Rejected | Crash

  /** One attempt: the reply, and the id and time a report made from it gets. */
  datatype Attempt = Attempt(reply: Reply, newId: Uuid, at: int)

  /** The output schema. */
  predicate FitsSchema(o: Output) {
    && o.summary != [] && o.rootCause != [] && 0.0 <= o.confidence <= 1.0
    && forall i | 0 <= i < |o.citations| :: o.citations[i].source != [] && o.citations[i].relevance != []
  }

  function IdsOf(pack: seq<PackItem>): set<Uuid> {
    set i | 0 <= i < |pack| :: pack[i].evidenceId
  }

  /** Citations: at least one, all of them in the evidence pack. */
  predicate Grounded(citations: seq<Citation>, ids: set<Uuid>) {
    citations != [] && forall i | 0 <= i < |citations| :: citations[i].evidenceId in ids
  }

  function Clean(citations: seq<Citation>): (r: seq<Citation>)
    ensures |r| == |citations|
    ensures forall i | 0 <= i < |r| ::
              r[i] == MakeCitation(citations[i].evidenceId, citations[i].source, citations[i].relevance)
  {
    seq(|citations|, i requires 0 <= i < |citations| =>
      MakeCitation(citations[i].evidenceId, citations[i].source, citations[i].relevance))
  }

  /** No report without an incident id; nothing at all when the constructor refuses. */
  datatype Made = NoReport | Refused | Made(report: Report)

  function ToReport(c: Codec, incident: string, a: Attempt): Made
    requires a.reply.Answer?
  {
    var o := a.reply.output;
    var id := c.parseUuid(incident);
    if id.None? then NoReport
    else
      var finding := if o.confidence < CONFIDENCE_THRESHOLD then Hypothesis else o.finding;
      var made := MakeReport(Report(a.newId, id.value, 1, Original, o.summary, o.rootCause, o.factors, o.confidence,
                                    finding, PendingReview, Clean(o.citations), o.actions, a.reply.modelId,
                                    a.reply.inputTokens, a.reply.outputTokens, a.at));
      if made.None? then Refused else Made(made.value)
  }

  datatype Outcome = PendingReviewOutcome | Escalated

  datatype Reason = LowConfidence | AgentFailure

  /** What is handed on: the report's dictionary, the bare answer when there is no report, or an error. */
  datatype Handed = OfReport(payload: Payload) | OfOutput(output: Output) | OfError

  datatype Generation =
    Generation(outcome: Outcome, reason: Option<Reason>, report: Option<Report>, handed: Handed, attempts: nat)

  datatype Result = Generated(generation: Generation) | EmptyPack | Crashed

  /** An attempt is accepted when the answer fits the schema, is grounded, and the constructor takes it. */
  predicate Accepted(c: Codec, incident: string, ids: set<Uuid>, a: Attempt) {
    && a.reply.Answer? && FitsSchema(a.reply.output) && Grounded(a.reply.output.citations, ids)
    && !ToReport(c, incident, a).Refused?
  }

  function FromAttempt(c: Codec, incident: string, a: Attempt, n: nat): Generation
    requires a.reply.Answer?
  {
    var made := ToReport(c, incident, a);
    var report := if made.Made? then Some(made.report) else None;
    var handed := if made.Made? then OfReport(AsDict(c, made.report)) else OfOutput(a.reply.output);
    if a.reply.output.confidence < CONFIDENCE_THRESHOLD
    then Generation(Escalated, Some(LowConfidence), report, handed, n)
    else Generation(PendingReviewOutcome, None, report, handed, n)
  }

  method GenerateRca(c: Codec, incident: string, pack: seq<PackItem>, llm: nat -> Attempt) returns (r: Result,
                     calls: nat)
    ensures pack == [] <==> r == EmptyPack
    ensures calls <= 2 && (pack == [] ==> calls == 0)
    ensures pack != [] ==> r == Generate(c, incident, IdsOf(pack), llm)
    ensures r.Generated? ==> r.generation.attempts == calls
  {
    if pack == [] {
      return EmptyPack, 0;
    }
    calls := 0;
    var ids := IdsOf(pack);
    for attempt := 1 to 3
      invariant calls == attempt - 1
      invariant forall k: nat | 1 <= k < attempt :: !llm(k).reply.Crash? && !Accepted(c, incident, ids, llm(k))
    {
      calls := calls + 1;
      var a := llm(attempt);
      if a.reply.Crash? {
        return Crashed, calls;
      }
      if a.reply.Answer? && FitsSchema(a.reply.output) && Grounded(a.reply.output.citations, ids) {
        if !ToReport(c, incident, a).Refused? {
          return Generated(FromAttempt(c, incident, a, attempt)), calls;
        }
      }
    }
    r := Generated(Generation(Escalated, Some(AgentFailure), None, OfError, 2));
  }

  /** The result by the fate of the two attempts. */
  function Generate(c: Codec, incident: string, ids: set<Uuid>, llm: nat -> Attempt): Result {
    if llm(1).reply.Crash? then Crashed
    else if Accepted(c, incident, ids, llm(1)) then Generated(FromAttempt(c, incident, llm(1), 1))
    else if llm(2).reply.Crash? then Crashed
    else if Accepted(c, incident, ids, llm(2)) then Generated(FromAttempt(c, incident, llm(2), 2))
    else Generated(Generation(Escalated, Some(AgentFailure), None, OfError, 2))
  }

  // ----- what every generation promises ---------------------------------------------------

  function CitationsOf(h: Handed, report: Option<Report>): seq<Citation> {
    if report.Some? then report.value.citations else if h.OfOutput? then h.output.citations else []
  }

  function ConfidenceOf(h: Handed, report: Option<Report>): real {
    if report.Some? then report.value.confidence else if h.OfOutput? then h.output.confidence else 0.0
  }

  lemma CleanStaysGrounded(citations: seq<Citation>, ids: set<Uuid>)
    requires Grounded(citations, ids)
    ensures Grounded(Clean(citations), ids)
  {
  }

  lemma AcceptedGeneration(c: Codec, incident: string, ids: set<Uuid>, a: Attempt, n: nat)
    requires Accepted(c, incident, ids, a)
    ensures var g := FromAttempt(c, incident, a, n);
            && Grounded(CitationsOf(g.handed, g.report), ids)
            && ConfidenceOf(g.handed, g.report) == a.reply.output.confidence
            && (g.report.Some? <==> c.parseUuid(incident).Some?)
            && (g.report.Some? ==> Valid(g.report.value) && g.handed == OfReport(AsDict(c, g.report.value)))
            && (g.report.None? ==> g.handed == OfOutput(a.reply.output))
            && (a.reply.output.confidence < 0.6 && g.report.Some? ==>
                  g.report.value.finding == Hypothesis)
  {
    var o := a.reply.output;
    CleanStaysGrounded(o.citations, ids);
    var id := c.parseUuid(incident);
    if id.Some? {
      var finding := if o.confidence < CONFIDENCE_THRESHOLD then Hypothesis else o.finding;
      var draft := Report(a.newId, id.value, 1, Original, o.summary, o.rootCause, o.factors, o.confidence, finding,
                          PendingReview, Clean(o.citations), o.actions, a.reply.modelId,
                          a.reply.inputTokens, a.reply.outputTokens, a.at);
      forall i | 0 <= i < |draft.citations| ensures CleanCitation(draft.citations[i]) {
        CleanTwice(o.citations[i]);
      }
      MadeReportsAreValid(draft);
      hide AsDict;
      hide Valid;
      hide KeepText;
    }
  }

  /** Which answers are accepted: those that fit the schema, cite something and only what is in the evidence
      pack, and, when there is an incident to report on, keep a summary, a root cause and a model name once
      stripped. */
  lemma AcceptedExactly(c: Codec, incident: string, ids: set<Uuid>, a: Attempt)
    ensures Accepted(c, incident, ids, a)
       <==> && a.reply.Answer?
            && var o := a.reply.output;
               && o.summary != [] && o.rootCause != [] && 0.0 <= o.confidence <= 1.0
               && o.citations != []
               && (forall i | 0 <= i < |o.citations| ::
                     && o.citations[i].source != [] && o.citations[i].relevance != []
                     && o.citations[i].evidenceId in ids)
               && (c.parseUuid(incident).Some? ==>
                     Text.Strip(o.summary) != [] && Text.Strip(o.rootCause) != [] && Text.Strip(a.reply.modelId) != [])
  {
    hide KeepText;
    hide Text.Strip;
  }

  /** What the report of an accepted answer says: what the model said, its texts stripped, for the incident and
      awaiting review, but a hypothesis whenever the confidence is below 0.6. */
  lemma ReportSays(c: Codec, incident: string, ids: set<Uuid>, a: Attempt, n: nat)
    requires Accepted(c, incident, ids, a) && FromAttempt(c, incident, a, n).report.Some?
    ensures var o, r := a.reply.output, FromAttempt(c, incident, a, n).report.value;
            && r.id == a.newId && c.parseUuid(incident) == Some(r.incidentId) && r.createdAt == a.at
            && r.version == 1 && r.kind == Original && r.review == PendingReview
            && r.summary == Text.Strip(o.summary) && r.rootCause == Text.Strip(o.rootCause)
            && r.confidence == o.confidence
            && r.finding == (if o.confidence < 0.6 then Hypothesis else o.finding)
            && r.factors == KeepText(o.factors) && r.actions == KeepText(o.actions)
            && |r.citations| == |o.citations|
            && (forall i | 0 <= i < |r.citations| ::
                  r.citations[i] == Citation(o.citations[i].evidenceId, Text.Strip(o.citations[i].source),
                                             Text.Strip(o.citations[i].relevance)))
            && r.modelId == Text.Strip(a.reply.modelId)
            && r.inputTokens == (if a.reply.inputTokens < 0 then 0 else a.reply.inputTokens)
            && r.outputTokens == (if a.reply.outputTokens < 0 then 0 else a.reply.outputTokens)
  {
    hide KeepText;
    hide Text.Strip;
    hide AsDict;
  }

  lemma CleanTwice(x: Citation)
    ensures CleanCitation(MakeCitation(x.evidenceId, x.source, x.relevance))
  {
    Text.StripTwice(x.source);
    Text.StripTwice(x.relevance);
  }

  /** For every model, honest or not: a report goes to review only with confidence at or above the
      threshold and citations that are not empty and all in the evidence pack; below the threshold it escalates as
      low confidence, still grounded, and a report made from it is a hypothesis; and only two rejected
      answers escalate as agent failure. */
  lemma GenerationIsGrounded(c: Codec, incident: string, ids: set<Uuid>, llm: nat -> Attempt)
    ensures var r := Generate(c, incident, ids, llm);
            r.Generated? ==>
              var g := r.generation;
              && 1 <= g.attempts <= 2
              && (g.outcome == PendingReviewOutcome <==> g.reason.None?)
              && (g.outcome == PendingReviewOutcome ==>
                    && ConfidenceOf(g.handed, g.report) >= 0.6
                    && Grounded(CitationsOf(g.handed, g.report), ids))
              && (g.reason == Some(LowConfidence) ==>
                    && ConfidenceOf(g.handed, g.report) < 0.6
                    && Grounded(CitationsOf(g.handed, g.report), ids)
                    && (g.report.Some? ==> g.report.value.finding == Hypothesis))
              && (g.reason == Some(AgentFailure) <==>
                    !Accepted(c, incident, ids, llm(1)) && !Accepted(c, incident, ids, llm(2)))
              && (g.reason != Some(AgentFailure) ==> (g.report.Some? <==> c.parseUuid(incident).Some?))
              && (g.report.Some? ==> Valid(g.report.value) && g.handed == OfReport(AsDict(c, g.report.value)))
  {
    var first := Accepted(c, incident, ids, llm(1));
    if first {
      AcceptedGeneration(c, incident, ids, llm(1), 1);
    } else if Accepted(c, incident, ids, llm(2)) {
      AcceptedGeneration(c, incident, ids, llm(2), 2);
    }
    hide Accepted;
    hide Grounded;
    hide Valid;
    hide AsDict;
    hide ToReport;
    hide CitationsOf;
    hide ConfidenceOf;
  }

  /** Which answer a generation comes from: the first accepted one of the two, and the report is that answer's. */
  lemma FromWhichAnswer(c: Codec, incident: string, ids: set<Uuid>, llm: nat -> Attempt)
    ensures var r := Generate(c, incident, ids, llm);
            var first, second := Accepted(c, incident, ids, llm(1)), Accepted(c, incident, ids, llm(2));
            && (r == Crashed <==> llm(1).reply.Crash? || (!first && llm(2).reply.Crash?))
            && (r.Generated? ==>
                  && r.generation.attempts == (if first then 1 else 2)
                  && (first || second ==>
                        var answer := if first then llm(1) else llm(2);
                        && r.generation == FromAttempt(c, incident, answer, r.generation.attempts)
                        && (r.generation.report.Some? ==>
                              && r.generation.report.value.id == answer.newId
                              && r.generation.report.value.summary == Text.Strip(answer.reply.output.summary))))
  {
    forall a, n | Accepted(c, incident, ids, a) && FromAttempt(c, incident, a, n).report.Some?
      ensures var report := FromAttempt(c, incident, a, n).report.value;
              report.id == a.newId && report.summary == Text.Strip(a.reply.output.summary)
    {
      ReportSays(c, incident, ids, a, n);
    }
    hide FromAttempt;
    hide Text.Strip;
  }

  /** Without an incident id there is no report to correct, and the answer is handed on as the model wrote
      it: a low-confidence answer then reads as a hypothesis exactly when the model said so itself. */
  lemma LowConfidenceReadsAsHypothesis(c: Codec, incident: string, ids: set<Uuid>, a: Attempt, n: nat)
    requires Accepted(c, incident, ids, a) && a.reply.output.confidence < 0.6
    ensures var g := FromAttempt(c, incident, a, n);
            (match g.handed case OfReport(p) => KStatus in p && p[KStatus] == J.Str("hypothesis")
                            case OfOutput(o) => o.finding == Hypothesis
                            case OfError => false)
            <==> c.parseUuid(incident).Some? || a.reply.output.finding == Hypothesis
  {
    AcceptedGeneration(c, incident, ids, a, n);
    var g := FromAttempt(c, incident, a, n);
    if g.report.Some? {
      AsDictReads(c, g.report.value);
    }
    hide AsDict;
    hide Valid;
    hide Accepted;
  }

  /** What the drain reads back from an accepted generation is the report itself. */
  lemma HandedReportReadsBack(c: Codec, incident: string, ids: set<Uuid>, llm: nat -> Attempt, now: int)
    requires Faithful(c)
    ensures var r := Generate(c, incident, ids, llm);
            r.Generated? && r.generation.report.Some? ==>
              && r.generation.handed.OfReport?
              && ReportFromPayload(c, r.generation.handed.payload, now) == Loaded(r.generation.report.value)
  {
    GenerationIsGrounded(c, incident, ids, llm);
    hide Generate;
    hide ReportFromPayload;
    hide AsDict;
    hide Valid;
    hide Faithful;
    var r := Generate(c, incident, ids, llm);
    if r.Generated? && r.generation.report.Some? {
      ReportRoundTrip(c, r.generation.report.value, now);
    }
  }
}
