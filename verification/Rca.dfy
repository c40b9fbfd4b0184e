/** The root cause report: its invariants, its dictionary form, and reading it back. */
module Rca {
  import opened Json
  import opened Options
  import Text

  datatype Uuid = Uuid(bits: nat)

  datatype Finding = Confirmed | Hypothesis

  datatype Review = PendingReview | Accepted | Rejected

  datatype VersionKind = Original | Amended

  datatype Citation = Citation(evidenceId: Uuid, source: string, relevance: string)

  datatype Report =
    Report(id: Uuid, incidentId: Uuid, version: int, kind: VersionKind, summary: string, rootCause: string,
           factors: seq<string>, confidence: real, finding: Finding, review: Review, citations: seq<Citation>,
           actions: seq<string>, modelId: string, inputTokens: int, outputTokens: int, createdAt: int)

  /** Stripped, blanks dropped. */
  function KeepText(items: seq<string>): seq<string> {
    if items == [] then []
    else (if Text.Strip(items[0]) == [] then [] else [Text.Strip(items[0])]) + KeepText(items[1..])
  }

  function MakeCitation(evidenceId: Uuid, source: string, relevance: string): Citation {
    Citation(evidenceId, Text.Strip(source), Text.Strip(relevance))
  }

  function AtLeastZero(n: int): int {
    if n < 0 then 0 else n
  }

  /** The constructor: cleans the fields, or refuses them. */
  function MakeReport(r: Report): Option<Report> {
    var made := r.(summary := Text.Strip(r.summary), rootCause := Text.Strip(r.rootCause),
                   factors := KeepText(r.factors),
                   actions := KeepText(r.actions), modelId := Text.Strip(r.modelId),
                   inputTokens := AtLeastZero(r.inputTokens), outputTokens := AtLeastZero(r.outputTokens));
    if 0.0 <= r.confidence <= 1.0 && r.version >= 1 && r.citations != []
       && made.summary != [] && made.rootCause != [] && made.modelId != []
    then Some(made) else None
  }

  /** Blank entries are dropped and the others stripped, each for itself and in order. */
  lemma {:induction false} KeepTextExactly(x: seq<string>, y: seq<string>, item: string)
    ensures KeepText(x + y) == KeepText(x) + KeepText(y)
    ensures KeepText([item]) == if Text.Strip(item) == "" then [] else [Text.Strip(item)]
  {
    hide Text.Strip;
    var one, none: seq<string> := [item], [];
    assert one[1..] == none && KeepText(none) == [];
    if x == [] {
      assert x + y == y;
    } else {
      assert (x + y)[1..] == x[1..] + y;
      KeepTextExactly(x[1..], y, item);
    }
  }

  /** Which reports can be made: with a confidence between 0 and 1, a version, a citation, and summary, root
      cause and model name that are not blank. */
  lemma MadeExactly(r: Report)
    ensures MakeReport(r).Some?
       <==> && 0.0 <= r.confidence <= 1.0 && r.version >= 1 && r.citations != []
            && Text.Strip(r.summary) != [] && Text.Strip(r.rootCause) != [] && Text.Strip(r.modelId) != []
    ensures MakeReport(r).Some? ==>
              var m := MakeReport(r).value;
              && m.id == r.id && m.incidentId == r.incidentId && m.version == r.version && m.kind == r.kind
              && m.summary == Text.Strip(r.summary) && m.rootCause == Text.Strip(r.rootCause)
              && m.factors == KeepText(r.factors) && m.actions == KeepText(r.actions) && m.confidence == r.confidence
              && m.finding == r.finding && m.review == r.review && m.citations == r.citations
              && m.modelId == Text.Strip(r.modelId) && m.createdAt == r.createdAt
  {
    hide KeepText;
    hide Text.Strip;
  }

  predicate CleanCitation(c: Citation) {
    MakeCitation(c.evidenceId, c.source, c.relevance) == c
  }

  /** A report as the program holds it: constructed from clean citations. */
  predicate Valid(r: Report) {
    MakeReport(r) == Some(r) && forall i | 0 <= i < |r.citations| :: CleanCitation(r.citations[i])
  }

  lemma {:induction false} KeepTextTwice(items: seq<string>)
    ensures KeepText(KeepText(items)) == KeepText(items)
  {
    hide Text.Strip;
    if items != [] {
      KeepTextTwice(items[1..]);
      Text.StripTwice(items[0]);
      var s, rest := Text.Strip(items[0]), KeepText(items[1..]);
      if s != [] {
        assert ([s] + rest)[1..] == rest;
      } else {
        assert [] + rest == rest;
      }
    }
  }

  /** Whatever the constructor accepts, it accepts again unchanged. */
  lemma MadeReportsAreValid(r: Report)
    requires MakeReport(r).Some? && forall i | 0 <= i < |r.citations| :: CleanCitation(r.citations[i])
    ensures Valid(MakeReport(r).value)
  {
    hide KeepText;
    hide Text.Strip;
    KeepTextTwice(r.factors);
    KeepTextTwice(r.actions);
    Text.StripTwice(r.summary);
    Text.StripTwice(r.rootCause);
    Text.StripTwice(r.modelId);
  }

  // ----- the dictionary -------------------------------------------------------------------

  datatype Key =
    | KId | KIncidentId | KVersion | KVersionKind | KSummary | KRootCause | KFactors | KConfidence | KStatus
    | KReview | KCitations | KActions | KModelId | KInputTokens | KOutputTokens | KCreatedAt

  type Payload = map<Key, Json>

  /** Printing and reading of ids, times and numbers, and `str()` of a JSON value. */
  datatype Codec = Codec(showUuid: Uuid -> string, parseUuid: string -> Option<Uuid>,
                         showTime: int -> string, parseTime: string -> Option<int>,
                         text: Json -> string, toInt: Json -> Option<int>, toReal: Json -> Option<real>)

  ghost predicate Faithful(c: Codec) {
    && (forall u :: c.showUuid(u) != [] && c.parseUuid(c.showUuid(u)) == Some(u))
    && (forall t :: c.showTime(t) != [] && c.showTime(t)[|c.showTime(t)| - 1] != 'Z'
                    && c.parseTime(c.showTime(t)) == Some(t))
    && (forall s :: c.text(Str(s)) == s)
    && (forall n: int :: c.toInt(Number(n as real)) == Some(n))
    && (forall x :: c.toReal(Number(x)) == Some(x))
  }

  /** Unary printing of numbers: `p` and as many strokes for one that is not negative, else `m`. */
  function Unary(n: int): (s: string)
    ensures s != [] && s[|s| - 1] != 'Z'
  {
    if n >= 0 then "p" + seq(n, _ => '1') else "m" + seq(-n, _ => '1')
  }

  function ReadUnary(s: string): Option<int> {
    if s == [] then None else if s[0] == 'p' then Some(|s| - 1) else Some(1 - |s|)
  }

  lemma UnaryReadsBack(n: int)
    ensures ReadUnary(Unary(n)) == Some(n)
  {
    assert Unary(n)[0] == if n >= 0 then 'p' else 'm';
  }

  function ShowUuid(u: Uuid): (s: string)
    ensures s != []
  {
    Unary(u.bits)
  }

  function ReadUuid(s: string): Option<Uuid> {
    match ReadUnary(s)
    case None => None
    case Some(n) => if n >= 0 then Some(Uuid(n)) else None
  }

  function TextOf(j: Json): string {
    if j.Str? then j.text else ""
  }

  function WholeOf(j: Json): Option<int> {
    if j.Number? then Some(j.value.Floor) else None
  }

  function RealOf(j: Json): Option<real> {
    if j.Number? then Some(j.value) else None
  }

  lemma UuidReadsBack(u: Uuid)
    ensures ReadUuid(ShowUuid(u)) == Some(u)
  {
    UnaryReadsBack(u.bits);
    hide Unary;
    hide ReadUnary;
  }

  /** There are such functions. */
  lemma FaithfulExists() returns (c: Codec)
    ensures Faithful(c)
  {
    hide Unary;
    hide ReadUnary;
    hide ShowUuid;
    hide ReadUuid;
    c := Codec(ShowUuid, ReadUuid, Unary, ReadUnary, TextOf, WholeOf, RealOf);
    forall u: Uuid ensures c.parseUuid(c.showUuid(u)) == Some(u) {
      UuidReadsBack(u);
    }
    forall t: int ensures c.parseTime(c.showTime(t)) == Some(t) {
      UnaryReadsBack(t);
    }
  }

  function Strings(items: seq<string>): (r: seq<Json>)
    ensures |r| == |items| && forall i | 0 <= i < |items| :: r[i] == Str(items[i])
  {
    seq(|items|, i requires 0 <= i < |items| => Str(items[i]))
  }

  function CitationDict(c: Codec, x: Citation): Json {
    Obj(map["evidence_id" := Str(c.showUuid(x.evidenceId)), "source" := Str(x.source), "relevance" := Str(x.relevance)])
  }

  function CitationDicts(c: Codec, xs: seq<Citation>): (r: seq<Json>)
    ensures |r| == |xs| && forall i | 0 <= i < |xs| :: r[i] == CitationDict(c, xs[i])
  {
    seq(|xs|, i requires 0 <= i < |xs| => CitationDict(c, xs[i]))
  }

  function KindName(k: VersionKind): string {
    match k case Original => "original" case Amended => "amended"
  }

  function FindingName(f: Finding): string {
    match f case Confirmed => "confirmed" case Hypothesis => "hypothesis"
  }

  function ReviewName(v: Review): string {
    match v case PendingReview => "pending_review" case Accepted => "accepted" case Rejected => "rejected"
  }

  function ParseKind(s: string): Option<VersionKind> {
    if s == "original" then Some(Original) else if s == "amended" then Some(Amended) else None
  }

  function ParseFinding(s: string): Option<Finding> {
    if s == "confirmed" then Some(Confirmed) else if s == "hypothesis" then Some(Hypothesis) else None
  }

  function ParseReview(s: string): Option<Review> {
    if s == "pending_review" then Some(PendingReview)
    else if s == "accepted" then Some(Accepted)
    else if s == "rejected" then Some(Rejected)
    else None
  }

  function AsDict(c: Codec, r: Report): Payload {
    map[KId := Str(c.showUuid(r.id)), KIncidentId := Str(c.showUuid(r.incidentId)),
        KVersion := Number(r.version as real), KVersionKind := Str(KindName(r.kind)),
        KSummary := Str(r.summary), KRootCause := Str(r.rootCause), KFactors := Arr(Strings(r.factors)),
        KConfidence := Number(r.confidence), KStatus := Str(FindingName(r.finding)),
        KReview := Str(ReviewName(r.review)),
        KCitations := Arr(CitationDicts(c, r.citations)), KActions := Arr(Strings(r.actions)),
        KModelId := Str(r.modelId), KInputTokens := Number(r.inputTokens as real),
        KOutputTokens := Number(r.outputTokens as real), KCreatedAt := Str(c.showTime(r.createdAt))]
  }

  // ----- reading it back ------------------------------------------------------------------

  predicate Truthy(j: Json) {
    match j
    case Null => false
    case Bool(b) => b
    case Number(x) => x != 0.0
    case Str(s) => s != []
    case Arr(items) => items != []
    case Obj(fields) => fields != map[]
  }

  /** `payload.get(key) or default` */
  function Get(p: Payload, key: Key, default: Json): Json {
    if key in p && Truthy(p[key]) then p[key] else default
  }

  function Field(fields: map<string, Json>, name: string): Json {
    if name in fields && Truthy(fields[name]) then fields[name] else Str("")
  }

  datatype ReadOne = Skipped | Unreadable | One(citation: Citation)

  function ReadCitation(c: Codec, item: Json): ReadOne {
    if !item.Obj? || !("evidence_id" in item.fields && Truthy(item.fields["evidence_id"])) then Skipped
    else
      var f := item.fields;
      var id := c.parseUuid(c.text(f["evidence_id"]));
      if id.None? then Unreadable
      else One(MakeCitation(id.value, c.text(Field(f, "source")), c.text(Field(f, "relevance"))))
  }

  /** The citations of a list, skipping what has no evidence id; nothing when an id cannot be read. */
  function ReadCitations(c: Codec, items: seq<Json>): Option<seq<Citation>> {
    if items == [] then Some([])
    else
      var rest := ReadCitations(c, items[1..]);
      if rest.None? then None
      else match ReadCitation(c, items[0])
        case Skipped => rest
        case Unreadable => None
        case One(citation) => Some([citation] + rest.value)
  }

  function ReadStrings(items: seq<Json>): Option<seq<string>> {
    if items == [] then Some([])
    else
      var rest := ReadStrings(items[1..]);
      if rest.None? || !items[0].Str? then None else Some([items[0].text] + rest.value)
  }

  datatype Loaded = Nothing | Broken | Loaded(report: Report)

  function ItemsOf(j: Json): seq<Json> {
    if j.Arr? then j.items else []
  }

  /** Creation time; `now` when the payload has none. */
  function ReadTime(c: Codec, p: Payload, now: int): Option<int> {
    if KCreatedAt in p && p[KCreatedAt].Str? && p[KCreatedAt].text != [] then
      var s := p[KCreatedAt].text;
      c.parseTime(if s[|s| - 1] == 'Z' then s[..|s| - 1] + "+00:00" else s)
    else Some(now)
  }

  function ReportFromPayload(c: Codec, p: Payload, now: int): Loaded {
    if !(KId in p && Truthy(p[KId]) && KIncidentId in p && Truthy(p[KIncidentId])) then Nothing
    else
      var citations := ReadCitations(c, ItemsOf(Get(p, KCitations, Arr([]))));
      if citations.None? then Broken
      else if citations.value == [] then Nothing
      else
        var id, incident := c.parseUuid(c.text(p[KId])), c.parseUuid(c.text(p[KIncidentId]));
        var version := c.toInt(Get(p, KVersion, Number(1.0)));
        var kind := ParseKind(c.text(Get(p, KVersionKind, Str("original"))));
        var factors := ReadStrings(ItemsOf(Get(p, KFactors, Arr([]))));
        var actions := ReadStrings(ItemsOf(Get(p, KActions, Arr([]))));
        var confidence := c.toReal(Get(p, KConfidence, Number(0.0)));
        var finding := ParseFinding(c.text(Get(p, KStatus, Str("hypothesis"))));
        var review := ParseReview(c.text(Get(p, KReview, Str("pending_review"))));
        var input, output := c.toInt(Get(p, KInputTokens, Number(0.0))), c.toInt(Get(p, KOutputTokens, Number(0.0)));
        var created := ReadTime(c, p, now);
        if id.None? || incident.None? || version.None? || kind.None?
           || factors.None? || actions.None? || confidence.None?
           || finding.None? || review.None? || input.None? || output.None? || created.None? then Broken
        else
          var made := MakeReport(Report(id.value, incident.value, version.value, kind.value,
                                        c.text(Get(p, KSummary, Str(""))), c.text(Get(p, KRootCause, Str(""))),
                                        factors.value, confidence.value, finding.value, review.value, citations.value,
                                        actions.value, c.text(Get(p, KModelId, Str("fake-llm"))),
                                        input.value, output.value, created.value));
          if made.None? then Broken else Loaded(made.value)
  }

  /** What counts as missing: nothing, false, zero, and what is empty. */
  lemma TruthyExactly(j: Json)
    ensures !Truthy(j) <==> j in {Null, Bool(false), Number(0.0), Str(""), Arr([]), Obj(map[])}
  {
  }

  /** When a payload holds no report: without its id or its incident, or without a citation. */
  lemma NothingExactly(c: Codec, p: Payload, now: int)
    ensures ReportFromPayload(c, p, now) == Nothing
       <==> || KId !in p || !Truthy(p[KId]) || KIncidentId !in p || !Truthy(p[KIncidentId])
            || ReadCitations(c, if KCitations in p && p[KCitations].Arr? then p[KCitations].items else []) == Some([])
  {
    hide ReadCitations;
    hide MakeReport;
    hide ReadTime;
    hide ReadStrings;
  }

  /** What is assumed for a field a payload leaves out. */
  lemma DefaultsExactly(c: Codec, p: Payload, now: int)
    requires Faithful(c) && ReportFromPayload(c, p, now).Loaded?
    ensures var r := ReportFromPayload(c, p, now).report;
            && (KVersion !in p ==> r.version == 1) && (KVersionKind !in p ==> r.kind == Original)
            && (KStatus !in p ==> r.finding == Hypothesis) && (KReview !in p ==> r.review == PendingReview)
            && (KFactors !in p ==> r.factors == []) && (KActions !in p ==> r.actions == [])
            && (KInputTokens !in p ==> r.inputTokens == 0) && (KOutputTokens !in p ==> r.outputTokens == 0)
            && (KConfidence !in p ==> r.confidence == 0.0) && (KModelId !in p ==> r.modelId == "fake-llm")
  {
    hide ReportFromPayload;
    hide Faithful;
    NumbersByDefault(c, p, now);
    WordsByDefault(c, p, now);
  }

  lemma NumbersByDefault(c: Codec, p: Payload, now: int)
    requires Faithful(c) && ReportFromPayload(c, p, now).Loaded?
    ensures var r := ReportFromPayload(c, p, now).report;
            && (KVersion !in p ==> r.version == 1) && (KConfidence !in p ==> r.confidence == 0.0)
            && (KInputTokens !in p ==> r.inputTokens == 0) && (KOutputTokens !in p ==> r.outputTokens == 0)
  {
    DefaultsParse(c);
    hide ReadCitations;
    hide ReadTime;
    hide ReadStrings;
    hide ItemsOf;
    hide KeepText;
    hide Text.Strip;
    hide Faithful;
    hide ParseKind;
    hide ParseFinding;
    hide ParseReview;
    hide Truthy;
  }

  lemma WordsByDefault(c: Codec, p: Payload, now: int)
    requires Faithful(c) && ReportFromPayload(c, p, now).Loaded?
    ensures var r := ReportFromPayload(c, p, now).report;
            && (KVersionKind !in p ==> r.kind == Original) && (KStatus !in p ==> r.finding == Hypothesis)
            && (KReview !in p ==> r.review == PendingReview) && (KModelId !in p ==> r.modelId == "fake-llm")
            && (KFactors !in p ==> r.factors == []) && (KActions !in p ==> r.actions == [])
  {
    DefaultsParse(c);
    NothingKept();
    Text.NothingToStrip("fake-llm");
    hide ReadCitations;
    hide ReadTime;
    hide ReadStrings;
    hide ItemsOf;
    hide KeepText;
    hide Text.Strip;
    hide Faithful;
    hide ParseKind;
    hide ParseFinding;
    hide ParseReview;
    hide Truthy;
    hide AtLeastZero;
  }

  lemma NothingKept()
    ensures ReadStrings(ItemsOf(Arr([]))) == Some([]) && KeepText([]) == []
  {
  }

  /** When a report was made: now if the payload does not say, and at the time it gives, a final Z being UTC. */
  lemma TimeExactly(c: Codec, p: Payload, now: int)
    requires ReportFromPayload(c, p, now).Loaded?
    ensures var r := ReportFromPayload(c, p, now).report;
            && (KCreatedAt !in p ==> r.createdAt == now)
            && (forall s: string | KCreatedAt in p && p[KCreatedAt] == Str(s + "Z") ::
                  c.parseTime(s + "+00:00") == Some(r.createdAt))
            && (forall s: string | KCreatedAt in p && p[KCreatedAt] == Str(s) && s != "" && s[|s| - 1] != 'Z' ::
                  c.parseTime(s) == Some(r.createdAt))
  {
    hide ReadCitations;
    hide ReadStrings;
    hide ItemsOf;
    hide KeepText;
    hide Text.Strip;
    hide ParseKind;
    hide ParseFinding;
    hide ParseReview;
    hide Get;
    forall s: string ensures (s + "Z")[..|s + "Z"| - 1] == s {
    }
  }

  /** Summary and root cause have no default: without them there is no report. */
  lemma TextsAreNeeded(c: Codec, p: Payload, now: int)
    requires Faithful(c) && ReportFromPayload(c, p, now).Loaded?
    ensures KSummary in p && KRootCause in p
  {
    hide ReadCitations;
    hide ReadStrings;
    hide ReadTime;
    hide ParseKind;
    hide ParseFinding;
    hide ParseReview;
    hide KeepText;
    assert Text.Strip("") == "" && c.text(Str("")) == "";
    hide Text.Strip;
    hide Faithful;
  }

  lemma DefaultsParse(c: Codec)
    requires Faithful(c)
    ensures ParseKind(c.text(Str("original"))) == Some(Original)
    ensures ParseFinding(c.text(Str("hypothesis"))) == Some(Hypothesis)
    ensures ParseReview(c.text(Str("pending_review"))) == Some(PendingReview)
    ensures c.toInt(Number(1.0)) == Some(1) && c.toInt(Number(0.0)) == Some(0) && c.toReal(Number(0.0)) == Some(0.0)
    ensures c.text(Str("fake-llm")) == "fake-llm" && c.text(Str("")) == ""
  {
    assert Number(1 as real) == Number(1.0) && Number(0 as real) == Number(0.0);
  }

  // ----- the round trip -------------------------------------------------------------------

  lemma {:induction false} StringsRoundTrip(items: seq<string>)
    ensures ReadStrings(Strings(items)) == Some(items)
  {
    if items != [] {
      StringsRoundTrip(items[1..]);
      assert Strings(items)[1..] == Strings(items[1..]);
      assert items == [items[0]] + items[1..];
    }
  }

  lemma CitationRoundTrip(c: Codec, x: Citation)
    requires Faithful(c) && CleanCitation(x)
    ensures ReadCitation(c, CitationDict(c, x)) == One(x)
  {
    var d := CitationDict(c, x);
    assert d.fields["evidence_id"] == Str(c.showUuid(x.evidenceId));
    assert d.fields["source"] == Str(x.source) && d.fields["relevance"] == Str(x.relevance);
    assert c.text(Field(d.fields, "source")) == x.source && c.text(Field(d.fields, "relevance")) == x.relevance;
  }

  lemma {:induction false} CitationsRoundTrip(c: Codec, xs: seq<Citation>)
    requires Faithful(c) && forall i | 0 <= i < |xs| :: CleanCitation(xs[i])
    ensures ReadCitations(c, CitationDicts(c, xs)) == Some(xs)
  {
    hide ReadCitation;
    hide CitationDict;
    hide CleanCitation;
    if xs != [] {
      CitationsRoundTrip(c, xs[1..]);
      CitationRoundTrip(c, xs[0]);
      assert CitationDicts(c, xs)[1..] == CitationDicts(c, xs[1..]);
      assert xs == [xs[0]] + xs[1..];
    }
  }

  /** The entries of the dictionary, one by one. */
  ghost predicate Reads(c: Codec, p: Payload, r: Report) {
    && p.Keys == {KId, KIncidentId, KVersion, KVersionKind, KSummary, KRootCause, KFactors, KConfidence, KStatus,
                  KReview, KCitations, KActions, KModelId, KInputTokens, KOutputTokens, KCreatedAt}
    && p[KId] == Str(c.showUuid(r.id)) && p[KIncidentId] == Str(c.showUuid(r.incidentId))
    && p[KVersion] == Number(r.version as real) && p[KVersionKind] == Str(KindName(r.kind))
    && p[KSummary] == Str(r.summary) && p[KRootCause] == Str(r.rootCause) && p[KFactors] == Arr(Strings(r.factors))
    && p[KConfidence] == Number(r.confidence) && p[KStatus] == Str(FindingName(r.finding))
    && p[KReview] == Str(ReviewName(r.review)) && p[KCitations] == Arr(CitationDicts(c, r.citations))
    && p[KActions] == Arr(Strings(r.actions)) && p[KModelId] == Str(r.modelId)
    && p[KInputTokens] == Number(r.inputTokens as real) && p[KOutputTokens] == Number(r.outputTokens as real)
    && p[KCreatedAt] == Str(c.showTime(r.createdAt))
  }

  lemma AsDictReads(c: Codec, r: Report)
    ensures Reads(c, AsDict(c, r), r)
  {
    hide KindName;
    hide FindingName;
    hide ReviewName;
  }

  lemma NamesRoundTrip(k: VersionKind, f: Finding, v: Review)
    ensures ParseKind(KindName(k)) == Some(k) && KindName(k) != []
    ensures ParseFinding(FindingName(f)) == Some(f) && FindingName(f) != []
    ensures ParseReview(ReviewName(v)) == Some(v) && ReviewName(v) != []
  {
    assert |"original"| == 8 && |"amended"| == 7 && |"confirmed"| == 9 && |"hypothesis"| == 10;
    assert |"pending_review"| == 14 && "accepted"[0] == 'a' && "rejected"[0] == 'r';
  }

  /** Numbers and lists survive the `or default` idiom even when they are zero or empty. */
  lemma DefaultsAgree(c: Codec, p: Payload, r: Report)
    requires Faithful(c) && Reads(c, p, r) && r.version >= 1 && r.citations != []
    ensures c.toInt(Get(p, KVersion, Number(1.0))) == Some(r.version)
    ensures c.toInt(Get(p, KInputTokens, Number(0.0))) == Some(r.inputTokens)
    ensures c.toInt(Get(p, KOutputTokens, Number(0.0))) == Some(r.outputTokens)
    ensures c.toReal(Get(p, KConfidence, Number(0.0))) == Some(r.confidence)
    ensures ItemsOf(Get(p, KFactors, Arr([]))) == Strings(r.factors)
    ensures ItemsOf(Get(p, KActions, Arr([]))) == Strings(r.actions)
    ensures ItemsOf(Get(p, KCitations, Arr([]))) == CitationDicts(c, r.citations)
  {
    hide KindName;
    hide FindingName;
    hide ReviewName;
    hide CitationDict;
    assert 0 as real == 0.0;
    assert Strings([]) == [];
  }

  lemma TextsAgree(c: Codec, p: Payload, r: Report)
    requires Faithful(c) && Reads(c, p, r) && r.summary != [] && r.rootCause != [] && r.modelId != []
    ensures c.text(Get(p, KSummary, Str(""))) == r.summary && c.text(Get(p, KRootCause, Str(""))) == r.rootCause
    ensures c.text(Get(p, KModelId, Str("fake-llm"))) == r.modelId
    ensures ParseKind(c.text(Get(p, KVersionKind, Str("original")))) == Some(r.kind)
    ensures ParseFinding(c.text(Get(p, KStatus, Str("hypothesis")))) == Some(r.finding)
    ensures ParseReview(c.text(Get(p, KReview, Str("pending_review")))) == Some(r.review)
    ensures Truthy(p[KId]) && c.parseUuid(c.text(p[KId])) == Some(r.id)
    ensures Truthy(p[KIncidentId]) && c.parseUuid(c.text(p[KIncidentId])) == Some(r.incidentId)
  {
    NamesRoundTrip(r.kind, r.finding, r.review);
    hide KindName;
    hide FindingName;
    hide ReviewName;
    hide ParseKind;
    hide ParseFinding;
    hide ParseReview;
  }

  /** A report survives its dictionary form unchanged. */
  lemma ReportRoundTrip(c: Codec, r: Report, now: int)
    requires Faithful(c) && Valid(r)
    ensures ReportFromPayload(c, AsDict(c, r), now) == Loaded(r)
  {
    hide KeepText;
    hide Text.Strip;
    hide Strings;
    hide ReadStrings;
    hide ReadCitations;
    hide CitationDicts;
    hide ParseKind;
    hide ParseFinding;
    hide ParseReview;
    var p := AsDict(c, r);
    AsDictReads(c, r);
    hide AsDict;
    DefaultsAgree(c, p, r);
    TextsAgree(c, p, r);
    StringsRoundTrip(r.factors);
    StringsRoundTrip(r.actions);
    CitationsRoundTrip(c, r.citations);
    assert ReadTime(c, p, now) == Some(r.createdAt);
    hide Get;
    hide ItemsOf;
    hide ReadTime;
  }
}
