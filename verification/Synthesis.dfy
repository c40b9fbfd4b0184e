/** The synthesize node over whole runs: what the recorder hands it, whose evidence a report may cite, and how
    it ends. */
module Synthesis {
  import opened Collections
  import opened Options
  import opened Rca
  import opened RcaGenerate
  import Text
  import D = Delivery
  import DR = DeliveryRuns
  import I = Investigation
  import IR = InvestigationRuns

  datatype Why = OfRca(reason: Reason) | OfPlan(cause: I.Reason)

  /** What the node adds to the state: the status, why it escalated, and what it hands on, with the report
      that was made from it; `Broke` is an exception. */
  datatype Synthesis =
    | Ended(status: Outcome, why: Option<Why>, handed: Option<Handed>, report: Option<Report>)
    | Broke

  function WhyOf(s: I.State, reason: Option<Reason>): Option<Why> {
    match reason
    case Some(r) => Some(OfRca(r))
    case None => if s.reason.Some? then Some(OfPlan(s.reason.value)) else None
  }

  function Synthesize(c: Codec, reader: Reader, s: I.State, recorded: seq<PackItem>, llm: nat -> Attempt): Synthesis {
    var pack := PackFor(reader, s, recorded);
    if pack == [] then Ended(Escalated, Some(OfRca(AgentFailure)), None, None)
    else match Generate(c, s.incident, IdsOf(pack), llm)
      case Generated(g) => Ended(g.outcome, WhyOf(s, g.reason), Some(g.handed), g.report)
      case _ => Broke
  }

  /** What was handed on cites. */
  function CitedBy(r: Synthesis): seq<Citation> {
    if r.Broke? || r.handed.None? then [] else CitationsOf(r.handed.value, r.report)
  }

  // ----- what a run records ---------------------------------------------------------------

  /** How evidence becomes a recorded row: the id is new, source and excerpt come from the item. */
  datatype Minting = Minting(sourceOf: I.Item -> string, excerptOf: I.Item -> string)

  /** What the recorder adds in one round: the rows of each specialist, and which of two goes first. */
  datatype Recording = Recording(rows: I.Kind -> seq<PackItem>, swapped: bool)

  type Recordings = nat -> Recording

  predicate Mints(m: Minting, row: PackItem, item: I.Item) {
    row.source == m.sourceOf(item) && row.excerpt == m.excerptOf(item)
  }

  predicate MintsAll(m: Minting, rows: seq<PackItem>, items: seq<I.Item>) {
    |rows| == |items| && forall k | 0 <= k < |rows| :: Mints(m, rows[k], items[k])
  }

  /** The recorder keeps a row for every item of a report, or none when it raises: all rows are made before the
      first is kept. */
  ghost predicate Keeps(m: Minting, rounds: IR.Rounds, recordings: Recordings) {
    forall i: nat, kind: I.Kind ::
      recordings(i).rows(kind) == [] || MintsAll(m, recordings(i).rows(kind), rounds(i).reports(kind).evidence)
  }

  function RowsOf(kinds: seq<I.Kind>, rows: I.Kind -> seq<PackItem>): seq<PackItem> {
    if kinds == [] then [] else rows(kinds[0]) + RowsOf(kinds[1..], rows)
  }

  function InOrder(kinds: seq<I.Kind>, swapped: bool): seq<I.Kind> {
    if swapped && |kinds| == 2 then [kinds[1], kinds[0]] else kinds
  }

  /** The rows recorded over a run, oldest first. */
  function RecordedIn(s: I.State, rounds: IR.Rounds, recordings: Recordings, i: nat): seq<PackItem>
    decreases IR.Measure(s)
  {
    var s1 := I.CommanderNode(s, rounds(i).now);
    match I.RouteAfterCommander(s1)
    case ToSpecialists(kinds) =>
      var s2 := IR.SuperStep(s1, kinds, rounds(i));
      IR.MergeAllKeeps(s1, InOrder(kinds, rounds(i).swapped), rounds(i).reports);
      RowsOf(InOrder(kinds, recordings(i).swapped), recordings(i).rows)
      + RecordedIn(s2, rounds, recordings, i + 1)
    case _ => []
  }

  /** The row stands for evidence the state holds. */
  ghost predicate Backed(m: Minting, s: I.State, row: PackItem) {
    exists item :: item in s.evidence && Mints(m, row, item)
  }

  ghost predicate AllBacked(m: Minting, s: I.State, rows: seq<PackItem>) {
    forall row | row in rows :: Backed(m, s, row)
  }

  predicate Holds(more: I.State, s: I.State) {
    forall item | item in s.evidence :: item in more.evidence
  }

  lemma {:induction false} MergeHolds(s: I.State, kinds: seq<I.Kind>, reports: I.Kind -> I.Update)
    ensures Holds(IR.MergeAll(s, kinds, reports), s)
    ensures forall kind, item | kind in kinds && item in reports(kind).evidence ::
              item in IR.MergeAll(s, kinds, reports).evidence
    decreases |kinds|
  {
    if kinds != [] {
      MergeHolds(I.Merge(s, reports(kinds[0])), kinds[1..], reports);
      assert kinds == [kinds[0]] + kinds[1..];
    }
  }

  lemma {:induction false} RowsAreBacked(m: Minting, s: I.State, kinds: seq<I.Kind>, rows: I.Kind -> seq<PackItem>,
                                         reports: I.Kind -> I.Update)
    requires forall kind, item | kind in kinds && item in reports(kind).evidence :: item in s.evidence
    requires forall kind :: rows(kind) == [] || MintsAll(m, rows(kind), reports(kind).evidence)
    ensures AllBacked(m, s, RowsOf(kinds, rows))
    decreases |kinds|
  {
    hide Mints;
    if kinds != [] {
      assert kinds == [kinds[0]] + kinds[1..];
      RowsAreBacked(m, s, kinds[1..], rows, reports);
      forall row | row in rows(kinds[0]) ensures Backed(m, s, row) {
        var k :| 0 <= k < |rows(kinds[0])| && rows(kinds[0])[k] == row;
        assert reports(kinds[0]).evidence[k] in reports(kinds[0]).evidence;
      }
    }
  }

  lemma StillBacked(m: Minting, s: I.State, more: I.State, rows: seq<PackItem>)
    requires Holds(more, s) && AllBacked(m, s, rows)
    ensures AllBacked(m, more, rows)
  {
    hide Mints;
    forall row | row in rows ensures Backed(m, more, row) {
      assert Backed(m, s, row);
    }
  }

  lemma VisitRecords(m: Minting, s: I.State, rounds: IR.Rounds, recordings: Recordings, i: nat, kinds: seq<I.Kind>)
    requires Keeps(m, rounds, recordings)
    ensures var after := IR.SuperStep(s, kinds, rounds(i));
            Holds(after, s) && AllBacked(m, after, RowsOf(InOrder(kinds, recordings(i).swapped), recordings(i).rows))
  {
    hide MintsAll;
    hide AllBacked;
    var merged, kept := InOrder(kinds, rounds(i).swapped), InOrder(kinds, recordings(i).swapped);
    MergeHolds(s, merged, rounds(i).reports);
    assert forall kind :: kind in merged <==> kind in kept;
    RowsAreBacked(m, IR.SuperStep(s, kinds, rounds(i)), kept, recordings(i).rows, rounds(i).reports);
  }

  /** Every row a run records stands for evidence the run ends with. */
  lemma {:induction false} RecordedAreBacked(m: Minting, s: I.State, rounds: IR.Rounds, recordings: Recordings, i: nat)
    requires Keeps(m, rounds, recordings)
    ensures var final := IR.Explore(s, rounds, i).final;
            Holds(final, s) && AllBacked(m, final, RecordedIn(s, rounds, recordings, i))
    decreases IR.Measure(s)
  {
    hide Keeps;
    hide Backed;
    hide RowsOf;
    var s1 := I.CommanderNode(s, rounds(i).now);
    var route := I.RouteAfterCommander(s1);
    if route.ToSpecialists? {
      var s2 := IR.SuperStep(s1, route.kinds, rounds(i));
      IR.MergeAllKeeps(s1, InOrder(route.kinds, rounds(i).swapped), rounds(i).reports);
      VisitRecords(m, s1, rounds, recordings, i, route.kinds);
      hide IR.SuperStep;
      RecordedAreBacked(m, s2, rounds, recordings, i + 1);
      StillBacked(m, s2, IR.Explore(s, rounds, i).final,
                  RowsOf(InOrder(route.kinds, recordings(i).swapped), recordings(i).rows));
    }
  }

  // ----- how the node ends ----------------------------------------------------------------

  /** Review, doubt or two rejected answers, each with what must then hold: the node raises only as the model's
      call does; two rejected answers escalate without a report; every other ending hands on citations, at least
      one and all in the evidence pack, and goes to review exactly when the confidence reaches the threshold. */
  predicate WellEnded(c: Codec, reader: Reader, s: I.State, recorded: seq<PackItem>, llm: nat -> Attempt) {
    var r := Synthesize(c, reader, s, recorded, llm);
    var ids := IdsOf(PackFor(reader, s, recorded));
    var first := RcaGenerate.Accepted(c, s.incident, ids, llm(1));
    var rejected := !first && !RcaGenerate.Accepted(c, s.incident, ids, llm(2));
    && (r.Broke? <==> llm(1).reply.Crash? || (!first && llm(2).reply.Crash?))
    && (r.Ended? ==>
          && (r.status == PendingReviewOutcome <==> r.why == None)
          && (r.why in {None, Some(OfRca(LowConfidence)), Some(OfRca(AgentFailure))})
          && (r.why == Some(OfRca(AgentFailure)) <==> rejected)
          && (rejected ==> r.report == None)
          && (!rejected ==>
                && r.handed.Some?
                && Grounded(CitedBy(r), ids)
                && (r.why == None <==> ConfidenceOf(r.handed.value, r.report) >= 0.6)))
  }

  lemma SynthesisEnds(c: Codec, reader: Reader, s: I.State, recorded: seq<PackItem>, llm: nat -> Attempt)
    requires IR.Ready(s)
    ensures WellEnded(c, reader, s, recorded, llm)
  {
    hide PackFor;
    hide IdsOf;
    hide RcaGenerate.Accepted;
    hide CitationsOf;
    hide ConfidenceOf;
    hide FromAttempt;
    hide Valid;
    hide AsDict;
    hide Grounded;
    var ids := IdsOf(PackFor(reader, s, recorded));
    ReadyPackIsNotEmpty(reader, s, recorded);
    GenerationIsGrounded(c, s.incident, ids, llm);
    var r := Generate(c, s.incident, ids, llm);
    if r.Generated? && r.generation.reason != None && r.generation.reason != Some(LowConfidence) {
      assert r.generation.reason.value == AgentFailure;
    }
  }

  // ----- whose evidence is cited ----------------------------------------------------------

  /** The id of a row the run recorded, standing for evidence it ends with; or, when it recorded none, the id
      derived from structured evidence. */
  ghost predicate OfRun(m: Minting, reader: Reader, s: I.State, own: seq<PackItem>, id: Uuid) {
    if own != [] then exists row :: row in own && row.evidenceId == id && Backed(m, s, row)
    else exists k: nat ::
           && k < |s.evidence| && s.evidence[k].Structured?
           && reader.idOf(if s.incident == "" then "INC-LEARN" else s.incident, k, s.evidence[k]) == id
  }

  /** Rows of earlier attempts: ids are new for every row, so none of them is an id of this run. */
  ghost predicate NoneOfRun(m: Minting, reader: Reader, s: I.State, own: seq<PackItem>, left: seq<PackItem>) {
    forall row | row in left :: !OfRun(m, reader, s, own, row.evidenceId)
  }

  ghost predicate CitesRun(m: Minting, reader: Reader, s: I.State, own: seq<PackItem>, r: Synthesis) {
    forall i | 0 <= i < |CitedBy(r)| :: OfRun(m, reader, s, own, CitedBy(r)[i].evidenceId)
  }

  lemma {:induction false} PackedItem(reader: Reader, incident: string, evidence: seq<I.Item>, index: nat, room: nat,
                                      i: nat)
    returns (k: nat)
    requires index <= |evidence| && i < |PackFrom(reader, incident, evidence, index, room)|
    ensures k < |evidence| && evidence[k].Structured?
    ensures PackFrom(reader, incident, evidence, index, room)[i] == PackItemOf(reader, incident, k, evidence[k])
    decreases |evidence| - index
  {
    hide PackItemOf;
    if !evidence[index].Structured? {
      k := PackedItem(reader, incident, evidence, index + 1, room, i);
    } else if i == 0 {
      k := index;
    } else {
      k := PackedItem(reader, incident, evidence, index + 1, room - 1, i - 1);
    }
  }

  lemma OwnPack(m: Minting, reader: Reader, s: I.State, own: seq<PackItem>)
    requires AllBacked(m, s, own)
    ensures forall id | id in IdsOf(PackFor(reader, s, own)) :: OfRun(m, reader, s, own, id)
  {
    hide Backed;
    var pack := PackFor(reader, s, own);
    forall id | id in IdsOf(pack) ensures OfRun(m, reader, s, own, id) {
      var i: nat :| i < |pack| && pack[i].evidenceId == id;
      if own != [] {
        assert own[i] in own && own[i].evidenceId == id;
      } else {
        var k := PackedItem(reader, KeyOf(s), s.evidence, 0, 8, i);
      }
    }
  }

  /** Rows that wait come first. The evidence pack holds the run's own evidence alone exactly when nothing waited, and
      none of it when as many wait as a pack holds. */
  lemma PackOfRunExactly(m: Minting, reader: Reader, s: I.State, left: seq<PackItem>, own: seq<PackItem>)
    requires AllBacked(m, s, own) && NoneOfRun(m, reader, s, own, left)
    ensures (forall id | id in IdsOf(PackFor(reader, s, left + own)) :: OfRun(m, reader, s, own, id)) <==> left == []
    ensures |left| >= 8 ==> PackFor(reader, s, left + own) == left[..8]
  {
    hide OfRun;
    hide Backed;
    hide PackFrom;
    if left == [] {
      assert left + own == own;
      OwnPack(m, reader, s, own);
    } else {
      WaitingIsPacked(reader, s, left, own);
    }
    FirstOfConcat(left, own, 8);
  }

  lemma WaitingIsPacked(reader: Reader, s: I.State, left: seq<PackItem>, own: seq<PackItem>)
    requires left != []
    ensures left[0].evidenceId in IdsOf(PackFor(reader, s, left + own))
  {
    hide PackFrom;
    assert PackFor(reader, s, left + own)[0] == left[0];
  }

  /** An answer that fits the schema and cites one piece of evidence. */
  function Citing(id: Uuid): Attempt {
    Attempt(Answer(Output("s", "r", [], 1.0, Confirmed, [Citation(id, "e", "w")], []), "m", 0, 0), id, 0)
  }

  lemma LettersStayThemselves()
    ensures Text.Strip("s") == "s" && Text.Strip("r") == "r" && Text.Strip("m") == "m"
  {
    Text.NothingToStrip("s");
    Text.NothingToStrip("r");
    Text.NothingToStrip("m");
  }

  lemma CitingMakesReport(c: Codec, incident: string, id: Uuid)
    ensures !ToReport(c, incident, Citing(id)).Refused?
    ensures var made := ToReport(c, incident, Citing(id));
            made.Made? ==> |made.report.citations| == 1 && made.report.citations[0].evidenceId == id
  {
    LettersStayThemselves();
    hide Text.Strip;
    hide KeepText;
  }

  lemma CitingIsAccepted(c: Codec, incident: string, ids: set<Uuid>, id: Uuid)
    requires id in ids
    ensures RcaGenerate.Accepted(c, incident, ids, Citing(id))
    ensures var g := FromAttempt(c, incident, Citing(id), 1);
            && g.outcome == PendingReviewOutcome
            && |CitationsOf(g.handed, g.report)| == 1 && CitationsOf(g.handed, g.report)[0].evidenceId == id
  {
    CitingMakesReport(c, incident, id);
    hide ToReport;
    hide AsDict;
  }

  /** As soon as one row waits, some model sends a report to review that cites it. */
  lemma WaitingRowIsCited(c: Codec, reader: Reader, s: I.State, left: seq<PackItem>, own: seq<PackItem>)
    returns (llm: nat -> Attempt)
    requires left != []
    ensures var r := Synthesize(c, reader, s, left + own, llm);
            && r.Ended? && r.status == PendingReviewOutcome
            && |CitedBy(r)| == 1 && CitedBy(r)[0].evidenceId == left[0].evidenceId
  {
    var id := left[0].evidenceId;
    llm := (n: nat) => Citing(id);
    WaitingIsPacked(reader, s, left, own);
    var ids := IdsOf(PackFor(reader, s, left + own));
    CitingIsAccepted(c, s.incident, ids, id);
    hide PackFrom;
    hide Citing;
    hide RcaGenerate.Accepted;
    hide FromAttempt;
    hide CitationsOf;
    assert PackFor(reader, s, left + own) != [];
    assert !llm(1).reply.Crash? by {
      CitingIsNoCrash(id);
    }
  }

  lemma CitingIsNoCrash(id: Uuid)
    ensures !Citing(id).reply.Crash?
  {
  }

  /** Every report a state can lead to cites evidence of its own run alone exactly when nothing waited for the
      recorder to be drained as the run began. */
  lemma CitationsStayExactly(c: Codec, m: Minting, reader: Reader, s: I.State, left: seq<PackItem>,
                             own: seq<PackItem>)
    requires IR.Ready(s) && AllBacked(m, s, own) && NoneOfRun(m, reader, s, own, left)
    ensures (forall llm: nat -> Attempt :: CitesRun(m, reader, s, own, Synthesize(c, reader, s, left + own, llm)))
       <==> left == []
  {
    hide OfRun;
    hide AllBacked;
    hide Synthesize;
    hide CitedBy;
    hide IR.Ready;
    if left == [] {
      assert left + own == own;
      forall llm: nat -> Attempt ensures CitesRun(m, reader, s, own, Synthesize(c, reader, s, left + own, llm)) {
        OwnCitations(c, m, reader, s, own, llm);
      }
    } else {
      var llm := WaitingRowIsCited(c, reader, s, left, own);
      var r := Synthesize(c, reader, s, left + own, llm);
      assert !OfRun(m, reader, s, own, CitedBy(r)[0].evidenceId);
    }
  }

  lemma OwnCitations(c: Codec, m: Minting, reader: Reader, s: I.State, own: seq<PackItem>, llm: nat -> Attempt)
    requires IR.Ready(s) && AllBacked(m, s, own)
    ensures CitesRun(m, reader, s, own, Synthesize(c, reader, s, own, llm))
  {
    hide OfRun;
    hide AllBacked;
    hide PackFor;
    hide IdsOf;
    hide RcaGenerate.Accepted;
    hide ConfidenceOf;
    hide IR.Ready;
    hide CitationsOf;
    SynthesisEnds(c, reader, s, own, llm);
    OwnPack(m, reader, s, own);
    var r := Synthesize(c, reader, s, own, llm);
    if r.Ended? && r.why == Some(OfRca(AgentFailure)) {
      RejectedCitesNothing(c, reader, s, own, llm);
    }
  }

  lemma RejectedCitesNothing(c: Codec, reader: Reader, s: I.State, recorded: seq<PackItem>, llm: nat -> Attempt)
    ensures var r := Synthesize(c, reader, s, recorded, llm);
            r.Ended? && r.why == Some(OfRca(AgentFailure)) ==> CitedBy(r) == []
  {
    hide PackFor;
    hide IdsOf;
    hide RcaGenerate.Accepted;
    hide ToReport;
    hide AsDict;
  }

  // ----- from the start of a run ----------------------------------------------------------

  /** End to end, with nothing waiting: from any start with evidence in dictionary form, for every model, clock,
      specialist and recorder, a run that gets to synthesize ends well, and what it hands on cites evidence of
      that run alone. */
  lemma SynthesisIsGrounded(c: Codec, m: Minting, reader: Reader, start: I.State, rounds: IR.Rounds,
                            recordings: Recordings, llm: nat -> Attempt)
    requires IR.AllStructured(start.evidence) && IR.Contract(rounds) && Keeps(m, rounds, recordings)
    requires IR.Explore(start, rounds, 0).final.next == Some(I.Synthesize)
    ensures var final := IR.Explore(start, rounds, 0).final;
            var own := RecordedIn(start, rounds, recordings, 0);
            && WellEnded(c, reader, final, own, llm)
            && CitesRun(m, reader, final, own, Synthesize(c, reader, final, own, llm))
  {
    hide IR.Explore;
    hide IR.Contract;
    hide RecordedIn;
    hide WellEnded;
    hide CitesRun;
    hide Keeps;
    hide AllBacked;
    IR.SynthesizeIsReady(start, rounds, 0);
    RecordedAreBacked(m, start, rounds, recordings, 0);
    var final := IR.Explore(start, rounds, 0).final;
    hide IR.Ready;
    SynthesisEnds(c, reader, final, RecordedIn(start, rounds, recordings, 0), llm);
    OwnCitations(c, m, reader, final, RecordedIn(start, rounds, recordings, 0), llm);
  }

  /** End to end, with rows waiting: the node ends as well, but its citations stay within the run for every
      model exactly when none waited. */
  lemma GroundedExactly(c: Codec, m: Minting, reader: Reader, start: I.State, rounds: IR.Rounds,
                        recordings: Recordings, left: seq<PackItem>)
    requires IR.AllStructured(start.evidence) && IR.Contract(rounds) && Keeps(m, rounds, recordings)
    requires IR.Explore(start, rounds, 0).final.next == Some(I.Synthesize)
    requires NoneOfRun(m, reader, IR.Explore(start, rounds, 0).final, RecordedIn(start, rounds, recordings, 0), left)
    ensures var final := IR.Explore(start, rounds, 0).final;
            var own := RecordedIn(start, rounds, recordings, 0);
            && (forall llm: nat -> Attempt :: WellEnded(c, reader, final, left + own, llm))
            && ((forall llm: nat -> Attempt ::
                   CitesRun(m, reader, final, own, Synthesize(c, reader, final, left + own, llm)))
                <==> left == [])
  {
    hide IR.Explore;
    hide IR.Contract;
    hide RecordedIn;
    hide WellEnded;
    hide CitesRun;
    hide Keeps;
    hide AllBacked;
    hide NoneOfRun;
    hide Synthesize;
    IR.SynthesizeIsReady(start, rounds, 0);
    RecordedAreBacked(m, start, rounds, recordings, 0);
    var final, own := IR.Explore(start, rounds, 0).final, RecordedIn(start, rounds, recordings, 0);
    hide IR.Ready;
    forall llm: nat -> Attempt ensures WellEnded(c, reader, final, left + own, llm) {
      SynthesisEnds(c, reader, final, left + own, llm);
    }
    CitationsStayExactly(c, m, reader, final, left, own);
  }

  // ----- across attempts and incidents ----------------------------------------------------

  lemma NoVisitNoRows(s: I.State, rounds: IR.Rounds, recordings: Recordings, i: nat)
    ensures IR.Explore(s, rounds, i).visited == [] ==> RecordedIn(s, rounds, recordings, i) == []
  {
    hide I.NextAction;
    hide IR.SuperStep;
    hide RowsOf;
  }

  /** A second attempt after one that broke in synthesize records nothing itself: its report is made from the rows
      that wait, those of the first attempt among them. */
  lemma RetryReportsFromWaiting(reader: Reader, payload: I.State, now: real, rounds: IR.Rounds, now2: real,
                                rounds2: IR.Rounds, recordings: Recordings, left: seq<PackItem>)
    requires IR.Pristine(payload) && payload.started == I.Missing && IR.Contract(rounds) && left != []
    requires IR.Investigate(payload, now, rounds).final.next == Some(I.Synthesize)
    ensures var again := I.Intake(IR.Resumed(IR.Investigate(payload, now, rounds).final, payload), now2);
            var own := RecordedIn(again, rounds2, recordings, 0);
            && own == []
            && PackFor(reader, IR.Explore(again, rounds2, 0).final, left + own) == FirstOf(left, 8)
  {
    IR.RetryAfterSynthesis(payload, now, rounds, now2, rounds2);
    hide IR.Explore;
    hide RecordedIn;
    hide PackFrom;
    var again := I.Intake(IR.Resumed(IR.Investigate(payload, now, rounds).final, payload), now2);
    NoVisitNoRows(again, rounds2, recordings, 0);
    assert left + [] == left;
  }

  /** The incidents whose evidence fills the evidence pack when a run of one incident reports. */
  function Owners(waiting: D.Buffers, id: nat, made: D.Made): seq<nat> {
    FirstOf(D.Recorded(waiting, id, made, true).evidence, 8)
  }

  /** All of it is the incident's own exactly when no other incident's is among the first rows that wait. */
  lemma OwnersExactly(waiting: D.Buffers, id: nat, made: D.Made)
    ensures (forall o | o in Owners(waiting, id, made) :: o == id)
       <==> forall o | o in FirstOf(waiting.evidence, 8) :: o == id
    ensures |waiting.evidence| >= 8 ==>
              Owners(waiting, id, made) == waiting.evidence[..8]
  {
    var x, rows := waiting.evidence, D.Rows(id, made.evidence);
    FirstOfConcat(x, rows, 8);
    if |x| < 8 {
      var more := FirstOf(rows, 8 - |x|);
      forall o | o in more ensures o == id {
        var k :| 0 <= k < |more| && more[k] == o;
        assert more[k] == rows[k];
      }
      assert Owners(waiting, id, made) == x + more && FirstOf(x, 8) == x;
      assert forall o :: o in x + more <==> o in x || o in more;
    } else {
      assert Owners(waiting, id, made) == FirstOf(x, 8);
    }
  }

  /** What one failed handler does to the next report of another incident: the report is made from that incident's
      evidence alone unless the failed run raised with evidence recorded and the process lived on, and from none
      of it if a packful was recorded. */
  lemma FailureFeedsNextReport(parse: D.Parser, w: D.World, i: nat, a: D.Attempt, id: nat, made: D.Made)
    requires w.buffers.evidence == [] && D.Receivable(w.queue, i) && DR.Starts(parse, w.db, w.queue[i].message)
    requires id != parse(w.queue[i].message.incident).value
    ensures var first := parse(w.queue[i].message.incident).value;
            var owners := Owners(D.Polled(parse, w, i, a).buffers, id, made);
            var leaks := a.fate == D.FailsInRun && a.made.evidence > 0 && !a.crash;
            && ((forall o | o in owners :: o == id) <==> !leaks)
            && (leaks && a.made.evidence >= 8 ==> forall o | o in owners :: o == first)
  {
    var first := parse(w.queue[i].message.incident).value;
    var after := D.Polled(parse, w, i, a).buffers;
    DR.EvidenceWaitsExactly(parse, w, i, a);
    if a.fate == D.FailsInRun && !a.crash {
      assert after.evidence == [] + D.Rows(first, a.made.evidence);
    }
    hide D.Polled;
    OwnersExactly(after, id, made);
    if after.evidence != [] {
      assert after.evidence[0] in FirstOf(after.evidence, 8);
    }
  }
}
