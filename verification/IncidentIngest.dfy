/** Signals from outside: repeated ones collapse into one open incident. */
module IncidentIngest {
  import opened Options
  import opened Incidents
  import F = Fingerprint
  import Text

  type Store = map<nat, Record>

  /** A signal with what the clock and the id generator give: the hour of the fingerprint, the moment, the
      text a repeated signal is noted with, and a new id. */
  datatype Signal = Signal(service: string, scenario: Option<string>, title: string, description: string,
                           hour: string, at: int, line: string, newId: nat)

  datatype Outcome = Created(id: nat) | Repeated(id: nat) | Rejected

  function KeyOf(s: Signal): Option<string> {
    F.Compute(s.service, s.scenario, s.hour)
  }

  /** The hour text of a fingerprint ends in a digit. */
  predicate HourText(hour: string) {
    hour != [] && !Text.IsSpace(hour[|hour| - 1])
  }

  predicate OpenUnder(store: Store, id: nat, key: string) {
    id in store && store[id].state == Open && store[id].fingerprint == Some(key)
  }

  predicate AnyOpenUnder(store: Store, key: string) {
    exists id | id in store :: OpenUnder(store, id, key)
  }

  function NewRecord(s: Signal, key: string): Record {
    Record(s.newId, Text.Strip(s.title), Text.Strip(s.description), Open, Text.Strip(s.service), s.at, s.at, [],
           Some(Text.Strip(key)))
  }

  /** What one signal does to the store. */
  predicate Ingested(before: Store, s: Signal, after: Store, outcome: Outcome) {
    var key := KeyOf(s);
    match outcome
    case Rejected =>
      after == before && (key.None? || (!AnyOpenUnder(before, key.value) && Text.Strip(s.title) == []))
    case Repeated(id) =>
      key.Some? && OpenUnder(before, id, key.value)
      && after == before[id := AppliedTo(Noted(before[id], s.line, s.at), before[id])]
    case Created(id) =>
      key.Some? && !AnyOpenUnder(before, key.value) && Text.Strip(s.title) != []
      && id == s.newId && after == before[id := NewRecord(s, key.value)]
  }

  class IngestIncidentSignal {
    var incidents: Store
    var published: seq<nat>

    constructor ()
      ensures incidents == map[] && published == []
    {
      incidents, published := map[], [];
    }

    method GetOpenByFingerprint(key: string) returns (found: Option<nat>)
      ensures found.Some? ==> OpenUnder(incidents, found.value, key)
      ensures found.None? ==> !AnyOpenUnder(incidents, key)
    {
      if id :| id in incidents && OpenUnder(incidents, id, key) {
        return Some(id);
      } else {
        return None;
      }
    }

    /** Lookup or create; a created incident is announced once, a repeated one never. */
    method Execute(s: Signal) returns (outcome: Outcome)
      requires s.newId !in incidents
      modifies this
      ensures Ingested(old(incidents), s, incidents, outcome)
      ensures published == old(published) + (if outcome.Created? then [outcome.id] else [])
    {
      var key := KeyOf(s);
      if key.None? {
        return Rejected;
      }
      var existing := GetOpenByFingerprint(key.value);
      if existing.Some? {
        var id := existing.value;
        var incident := new Incident(incidents[id]);
        incident.NoteDuplicateSignal(s.line, s.at);
        var row := new IncidentRow(incidents[id]);
        row.ApplyToOrm(incident.View());
        incidents := incidents[id := row.View()];
        return Repeated(id);
      }
      if Text.Strip(s.title) == [] {
        return Rejected;
      }
      incidents := incidents[s.newId := NewRecord(s, key.value)];
      published := published + [s.newId];
      outcome := Created(s.newId);
    }
  }

  // ----- runs -----------------------------------------------------------------------------

  /** A signal, an incident opened by hand (it has no fingerprint), or work on an existing incident. */
  datatype Step =
    | Receive(signal: Signal, outcome: Outcome)
    | OpenByHand(record: Record)
    | Work(id: nat, ops: seq<Operation>)

  predicate StepTo(before: Store, step: Step, after: Store) {
    match step
    case Receive(s, outcome) => s.newId !in before && HourText(s.hour) && Ingested(before, s, after, outcome)
    case OpenByHand(r) =>
      r.id !in before && r.state == Open && r.history == [] && r.fingerprint == None && after == before[r.id := r]
    case Work(id, ops) =>
      if id in before then after == before[id := AppliedTo(ApplyAll(before[id], ops), before[id])] else after == before
  }

  predicate IsRun(stores: seq<Store>, steps: seq<Step>) {
    |stores| == |steps| + 1 && forall i | 0 <= i < |steps| :: StepTo(stores[i], steps[i], stores[i + 1])
  }

  /** One open incident at most under each fingerprint. */
  predicate OneOpenEach(store: Store) {
    forall a, b | a in store && b in store && store[a].state == Open && store[b].state == Open
                  && store[a].fingerprint.Some? && store[a].fingerprint == store[b].fingerprint :: a == b
  }

  predicate AllLawful(store: Store) {
    forall id | id in store :: Lawful(store[id]) && store[id].id == id
  }

  lemma KeyIsClean(s: Signal)
    requires KeyOf(s).Some? && HourText(s.hour)
    ensures Text.Strip(KeyOf(s).value) == KeyOf(s).value
  {
    var key := KeyOf(s).value;
    var before := F.Join(F.Normal(s.service), F.ScenarioKey(s.scenario), "");
    assert key[|key| - 1] == s.hour[|s.hour| - 1] && key[0] == 'v';
    Text.NothingToStrip(key);
  }

  /** No operation opens an incident again. */
  lemma {:induction false} OpenStaysFromOpen(r: Record, ops: seq<Operation>)
    requires ApplyAll(r, ops).state == Open
    ensures r.state == Open
    decreases |ops|
  {
    if ops != [] {
      OpenStaysFromOpen(Apply(r, ops[0]), ops[1..]);
    }
  }

  lemma NotedIsApplied(r: Record, line: string, at: int)
    ensures ApplyAll(r, [Note(line, at)]) == Noted(r, line, at)
  {
    var one, none := [Note(line, at)], [];
    assert one[1..] == none;
    assert ApplyAll(Noted(r, line, at), none) == Noted(r, line, at);
    hide Noted;
  }

  /** What a worked-on row looks like. */
  lemma WorkedRow(row: Record, ops: seq<Operation>)
    requires Lawful(row)
    ensures var after := AppliedTo(ApplyAll(row, ops), row);
            && Lawful(after) && after.id == row.id && after.fingerprint == row.fingerprint
            && (after.state == Open ==> row.state == Open)
            && row.history <= after.history
  {
    SaveStoresIncident(row, ops);
    RunKeepsLaw(row, ops);
    RunKeepsIdentity(row, ops);
    hide AppliedTo;
    hide ApplyAll;
    if ApplyAll(row, ops).state == Open {
      OpenStaysFromOpen(row, ops);
    }
  }

  lemma StepKeepsStore(before: Store, step: Step, after: Store)
    requires OneOpenEach(before) && AllLawful(before) && StepTo(before, step, after)
    ensures OneOpenEach(after) && AllLawful(after)
  {
    hide Lawful;
    hide Text.Strip;
    hide AppliedTo;
    hide ApplyAll;
    hide KeyOf;
    match step
    case Receive(s, outcome) =>
      match outcome {
        case Rejected =>
        case Created(id) =>
          KeyIsClean(s);
          NewIsLawful(NewRecord(s, KeyOf(s).value));
        case Repeated(id) =>
          NotedIsApplied(before[id], s.line, s.at);
          WorkedRow(before[id], [Note(s.line, s.at)]);
      }
    case OpenByHand(r) => NewIsLawful(r);
    case Work(id, ops) =>
      if id in before {
        WorkedRow(before[id], ops);
      }
  }

  lemma NewIsLawful(r: Record)
    requires r.history == [] && r.state == Open
    ensures Lawful(r)
  {
  }

  /** Over every run of signals, manual creates and work on incidents there is at most one open incident
      per fingerprint, and every history is a path from open with at most five steps. */
  lemma {:induction false} RunKeepsOneOpen(stores: seq<Store>, steps: seq<Step>, i: nat)
    requires IsRun(stores, steps) && i < |stores| && OneOpenEach(stores[0]) && AllLawful(stores[0])
    ensures OneOpenEach(stores[i]) && AllLawful(stores[i])
    ensures forall id | id in stores[i] :: |stores[i][id].history| <= 5
  {
    if i > 0 {
      RunKeepsOneOpen(stores, steps, i - 1);
      StepKeepsStore(stores[i - 1], steps[i - 1], stores[i]);
    }
    hide OneOpenEach;
    hide IsRun;
    forall id | id in stores[i] ensures |stores[i][id].history| <= 5 {
      PathsRise(stores[i][id].history, stores[i][id].state);
    }
  }

  /** A second signal under the same fingerprint finds the incident of the first one, as long as nobody
      moved it out of open, and adds a line to it without touching state or history. */
  lemma RepeatFindsFirst(before: Store, first: Signal, middle: Store, o1: Outcome, second: Signal, after: Store,
                         o2: Outcome)
    requires OneOpenEach(before) && AllLawful(before)
    ensures && StepTo(before, Receive(first, o1), middle) && o1 != Rejected
            && StepTo(middle, Receive(second, o2), after) && KeyOf(second) == KeyOf(first)
            ==>
              && o2 == Repeated(o1.id) && o1.id in middle && after.Keys == middle.Keys
              && middle[o1.id].state == Open && after[o1.id].state == Open
              && after[o1.id].history == middle[o1.id].history
  {
    hide OneOpenEach;
    hide AllLawful;
    hide KeyOf;
    hide Ingested;
    if && StepTo(before, Receive(first, o1), middle) && o1 != Rejected
       && StepTo(middle, Receive(second, o2), after) && KeyOf(second) == KeyOf(first)
    {
      StepKeepsStore(before, Receive(first, o1), middle);
      SignalLeavesOpen(before, first, middle, o1);
      OpenIsFound(middle, o1.id, second, after, o2);
    }
  }

  /** An open incident under a signal's fingerprint takes the signal. */
  lemma OpenIsFound(store: Store, id: nat, s: Signal, after: Store, outcome: Outcome)
    requires OneOpenEach(store) && AllLawful(store) && Ingested(store, s, after, outcome)
    requires KeyOf(s).Some? && OpenUnder(store, id, KeyOf(s).value)
    ensures outcome == Repeated(id) && after.Keys == store.Keys
    ensures after[id].state == Open && after[id].history == store[id].history
  {
    hide Text.Strip;
    hide KeyOf;
    hide AppliedTo;
    hide Lawful;
    hide NewRecord;
    assert AnyOpenUnder(store, KeyOf(s).value);
    assert outcome == Repeated(id);
    NotedRow(store[id], s.line, s.at);
  }

  /** After an accepted signal its incident is open under its fingerprint. */
  lemma SignalLeavesOpen(before: Store, s: Signal, after: Store, outcome: Outcome)
    requires AllLawful(before) && StepTo(before, Receive(s, outcome), after) && outcome != Rejected
    ensures KeyOf(s).Some? && OpenUnder(after, outcome.id, KeyOf(s).value)
  {
    KeyIsClean(s);
    hide Text.Strip;
    hide KeyOf;
    hide AppliedTo;
    hide Lawful;
    if outcome.Repeated? {
      NotedRow(before[outcome.id], s.line, s.at);
    }
  }

  lemma NotedRow(row: Record, line: string, at: int)
    requires Lawful(row)
    ensures var after := AppliedTo(Noted(row, line, at), row);
            && after.state == row.state && after.history == row.history
            && after.fingerprint == row.fingerprint && after.id == row.id
  {
    NotedIsApplied(row, line, at);
    SaveStoresIncident(row, [Note(line, at)]);
    hide ApplyAll;
    hide MergedHistory;
  }

  /** What a signal leaves, exactly. A new incident is open with no history, titled, described and placed by the
      signal, stripped, under the signal's fingerprint; a repeated one gets a line more in its description and a
      new time, and keeps all the rest; a rejected one leaves nothing. */
  lemma SignalExactly(before: Store, s: Signal, after: Store, outcome: Outcome)
    requires AllLawful(before) && HourText(s.hour) && Ingested(before, s, after, outcome)
    ensures match outcome
            case Rejected => after == before
            case Created(id) =>
              && id == s.newId && after.Keys == before.Keys + {id}
              && (forall other | other in before && other != id :: after[other] == before[other])
              && var r := after[id];
                 && r.id == id && r.state == Open && r.history == [] && r.title == Text.Strip(s.title) != []
                 && r.description == Text.Strip(s.description) && r.service == Text.Strip(s.service)
                 && r.createdAt == r.updatedAt == s.at && r.fingerprint == F.Compute(s.service, s.scenario, s.hour)
            case Repeated(id) =>
              && id in before && after.Keys == before.Keys
              && (forall other | other in before && other != id :: after[other] == before[other])
              && before[id].state == Open && before[id].fingerprint == F.Compute(s.service, s.scenario, s.hour)
              && var description := if before[id].description == [] then s.line
                                    else before[id].description + "\n" + s.line;
                 after[id] == before[id].(description := description, updatedAt := s.at)
  {
    match outcome
    case Rejected =>
    case Created(id) =>
      KeyIsClean(s);
      hide Text.Strip;
      hide KeyOf;
    case Repeated(id) =>
      NotedRow(before[id], s.line, s.at);
      hide Text.Strip;
  }
}
