/** The incident: its lifecycle, its history, and the merge of that history into the stored row. */
module Incidents {
  import opened Options

  datatype IncidentState = Open | Investigating | Identified | Remediating | Resolved | Closed

  datatype StateTransition = StateTransition(from: IncidentState, to: IncidentState, at: int)

  function AllowedFrom(s: IncidentState): set<IncidentState> {
    match s
    case Open => {Investigating, Closed}
    case Investigating => {Identified, Closed}
    case Identified => {Remediating, Closed}
    case Remediating => {Resolved, Closed}
    case Resolved => {Closed}
    case Closed => {}
  }

  predicate CanTransition(current: IncidentState, target: IncidentState) {
    target in AllowedFrom(current)
  }

  /** Everything an incident holds. */
  datatype Record = Record(id: nat, title: string, description: string, state: IncidentState, service: string,
                           createdAt: int, updatedAt: int, history: seq<StateTransition>, fingerprint: Option<string>)

  function Transitioned(r: Record, target: IncidentState, at: int): Record {
    r.(state := target, updatedAt := at, history := r.history + [StateTransition(r.state, target, at)])
  }

  function Noted(r: Record, line: string, at: int): Record {
    r.(description := if r.description == [] then line else r.description + "\n" + line, updatedAt := at)
  }

  class Incident {
    const id: nat
    const title: string
    const service: string
    const createdAt: int
    const fingerprint: Option<string>
    var description: string
    var state: IncidentState
    var updatedAt: int
    var history: seq<StateTransition>

    constructor (r: Record)
      ensures View() == r
    {
      id, title, service, createdAt, fingerprint := r.id, r.title, r.service, r.createdAt, r.fingerprint;
      description, state, updatedAt, history := r.description, r.state, r.updatedAt, r.history;
    }

    function View(): Record
      reads this
    {
      Record(id, title, description, state, service, createdAt, updatedAt, history, fingerprint)
    }

    /** Refused, changing nothing, when the transition is not allowed. */
    method TransitionTo(target: IncidentState, at: int) returns (ok: bool)
      modifies this
      ensures ok == CanTransition(old(state), target)
      ensures View() == if ok then Transitioned(old(View()), target, at) else old(View())
    {
      if target !in AllowedFrom(state) {
        return false;
      }
      history := history + [StateTransition(state, target, at)];
      state, updatedAt := target, at;
      ok := true;
    }

    /** Out of open, once. */
    method StartInvestigation(at: int) returns (started: bool)
      modifies this
      ensures started == (old(state) == Open)
      ensures View() == if started then Transitioned(old(View()), Investigating, at) else old(View())
    {
      if state != Open {
        return false;
      }
      started := TransitionTo(Investigating, at);
    }

    method NoteDuplicateSignal(line: string, at: int)
      modifies this
      ensures View() == Noted(old(View()), line, at)
    {
      description := if description == [] then line else description + "\n" + line;
      updatedAt := at;
    }
  }

  // ----- histories ------------------------------------------------------------------------

  function Rank(s: IncidentState): nat {
    match s
    case Open => 0 case Investigating => 1 case Identified => 2
    case Remediating => 3 case Resolved => 4 case Closed => 5
  }

  /** Which moves there are: one step on, or closing what is not closed. */
  lemma TransitionsExactly(s: IncidentState, t: IncidentState)
    ensures CanTransition(s, t) <==> Rank(t) == Rank(s) + 1 || (t == Closed && s != Closed)
  {
  }

  /** A path of allowed steps from open to the given state. */
  predicate IsPath(history: seq<StateTransition>, state: IncidentState) {
    if history == [] then state == Open
    else
      var front, last := history[..|history| - 1], history[|history| - 1];
      last.to == state && CanTransition(last.from, state) && IsPath(front, last.from)
  }

  predicate DistinctSteps(history: seq<StateTransition>) {
    forall i, j | 0 <= i < j < |history| :: history[i] != history[j]
  }

  /** Ranks rise strictly along a path, so it has at most five steps, none of them twice, and closed is
      the end of it. */
  lemma {:induction false} PathsRise(history: seq<StateTransition>, state: IncidentState)
    requires IsPath(history, state)
    ensures |history| <= Rank(state) <= 5
    ensures forall i | 0 <= i < |history| :: Rank(history[i].from) < Rank(history[i].to) <= Rank(state)
    ensures forall i, j | 0 <= i < j < |history| :: Rank(history[i].to) <= Rank(history[j].from)
    ensures DistinctSteps(history)
  {
    if history != [] {
      var front, last := history[..|history| - 1], history[|history| - 1];
      PathsRise(front, last.from);
      assert Rank(last.from) < Rank(last.to);
      assert forall i | 0 <= i < |front| :: history[i] == front[i];
    }
  }

  /** Operations on one incident. */
  datatype Operation = Move(target: IncidentState, at: int) | Start(at: int) | Note(line: string, at: int)

  function Apply(r: Record, op: Operation): Record {
    match op
    case Move(target, at) => if CanTransition(r.state, target) then Transitioned(r, target, at) else r
    case Start(at) => if r.state == Open then Transitioned(r, Investigating, at) else r
    case Note(line, at) => Noted(r, line, at)
  }

  /** What each operation changes: an allowed move, or leaving open, sets state and time and adds one step of the
      history; a note adds a line to the description and sets the time; nothing else ever changes. */
  lemma OperationsExactly(r: Record, op: Operation)
    ensures var after := Apply(r, op);
            match op
            case Note(line, at) =>
              after == r.(description := if r.description == "" then line else r.description + "\n" + line,
                          updatedAt := at)
            case Move(target, at) =>
              after == if CanTransition(r.state, target)
                       then r.(state := target, updatedAt := at,
                               history := r.history + [StateTransition(r.state, target, at)])
                       else r
            case Start(at) =>
              after == if r.state == Open
                       then r.(state := Investigating, updatedAt := at,
                               history := r.history + [StateTransition(Open, Investigating, at)])
                       else r
  {
  }

  function ApplyAll(r: Record, ops: seq<Operation>): Record
    decreases |ops|
  {
    if ops == [] then r else ApplyAll(Apply(r, ops[0]), ops[1..])
  }

  predicate Lawful(r: Record) {
    IsPath(r.history, r.state)
  }

  lemma ApplyKeepsLaw(r: Record, op: Operation)
    requires Lawful(r)
    ensures Lawful(Apply(r, op)) && r.history <= Apply(r, op).history
  {
    var after := Apply(r, op);
    if after.history != r.history {
      assert after.history[..|after.history| - 1] == r.history;
    }
  }

  /** Over every run of operations, allowed or not, the history stays a path from open to the current
      state and only grows. */
  lemma {:induction false} RunKeepsLaw(r: Record, ops: seq<Operation>)
    requires Lawful(r)
    ensures var after := ApplyAll(r, ops);
            Lawful(after) && r.history <= after.history && |after.history| <= 5
    decreases |ops|
  {
    if ops == [] {
      PathsRise(r.history, r.state);
    } else {
      ApplyKeepsLaw(r, ops[0]);
      RunKeepsLaw(Apply(r, ops[0]), ops[1..]);
    }
  }

  // ----- the stored row -------------------------------------------------------------------

  /** The steps of `steps` that are not among `existing`. */
  function NewSteps(existing: set<StateTransition>, steps: seq<StateTransition>): seq<StateTransition> {
    if steps == [] then []
    else (if steps[0] in existing then [] else [steps[0]]) + NewSteps(existing, steps[1..])
  }

  function StepsOf(history: seq<StateTransition>): set<StateTransition> {
    set step | step in history
  }

  function MergedHistory(row: seq<StateTransition>, steps: seq<StateTransition>): seq<StateTransition> {
    row + NewSteps(StepsOf(row), steps)
  }

  /** The row after a save: domain fields copied, new history appended. */
  function AppliedTo(incident: Record, row: Record): Record {
    incident.(id := row.id, createdAt := row.createdAt, history := MergedHistory(row.history, incident.history))
  }

  class IncidentRow {
    const id: nat
    const createdAt: int
    var title: string
    var description: string
    var state: IncidentState
    var service: string
    var updatedAt: int
    var fingerprint: Option<string>
    var history: seq<StateTransition>

    constructor (r: Record)
      ensures View() == r
    {
      id, createdAt := r.id, r.createdAt;
      title, description, state, service := r.title, r.description, r.state, r.service;
      updatedAt, fingerprint, history := r.updatedAt, r.fingerprint, r.history;
    }

    function View(): Record
      reads this
    {
      Record(id, title, description, state, service, createdAt, updatedAt, history, fingerprint)
    }

    method ApplyToOrm(incident: Record)
      modifies this
      ensures View() == AppliedTo(incident, old(View()))
    {
      title, description, state, service := incident.title, incident.description, incident.state, incident.service;
      updatedAt, fingerprint := incident.updatedAt, incident.fingerprint;
      var existing := StepsOf(history);
      ghost var row := history;
      assert row + [] == row;
      for i := 0 to |incident.history|
        invariant history + NewSteps(existing, incident.history[i..]) == MergedHistory(row, incident.history)
        invariant title == incident.title && description == incident.description && state == incident.state
        invariant service == incident.service && updatedAt == incident.updatedAt && fingerprint == incident.fingerprint
      {
        var step := incident.history[i];
        assert incident.history[i..][1..] == incident.history[i + 1..];
        if step !in existing {
          history := history + [step];
        }
      }
    }
  }

  lemma {:induction false} NewStepsMembers(existing: set<StateTransition>, steps: seq<StateTransition>)
    requires DistinctSteps(steps)
    ensures DistinctSteps(NewSteps(existing, steps))
    ensures forall s :: s in NewSteps(existing, steps) <==> s in steps && s !in existing
  {
    if steps != [] {
      NewStepsMembers(existing, steps[1..]);
      assert steps == [steps[0]] + steps[1..];
      var rest := NewSteps(existing, steps[1..]);
      assert steps[0] !in rest;
    }
  }

  lemma {:induction false} NothingNew(existing: set<StateTransition>, steps: seq<StateTransition>)
    requires forall s | s in steps :: s in existing
    ensures NewSteps(existing, steps) == []
  {
    if steps != [] {
      NothingNew(existing, steps[1..]);
    }
  }

  lemma {:induction false} NewStepsConcat(existing: set<StateTransition>, x: seq<StateTransition>,
                                          y: seq<StateTransition>)
    ensures NewSteps(existing, x + y) == NewSteps(existing, x) + NewSteps(existing, y)
  {
    if x == [] {
      assert x + y == y;
    } else {
      assert (x + y)[1..] == x[1..] + y;
      NewStepsConcat(existing, x[1..], y);
    }
  }

  lemma {:induction false} AllNew(existing: set<StateTransition>, steps: seq<StateTransition>)
    requires forall s | s in steps :: s !in existing
    ensures NewSteps(existing, steps) == steps
  {
    if steps != [] {
      AllNew(existing, steps[1..]);
      assert steps == [steps[0]] + steps[1..];
    }
  }

  /** The merge neither drops nor duplicates a step: every step of the row and of the incident is there,
      once, the row's own first and untouched. */
  lemma MergeKeepsSteps(row: seq<StateTransition>, steps: seq<StateTransition>)
    requires DistinctSteps(row) && DistinctSteps(steps)
    ensures var merged := MergedHistory(row, steps);
            && row <= merged && DistinctSteps(merged)
            && forall s :: s in merged <==> s in row || s in steps
  {
    NewStepsMembers(StepsOf(row), steps);
    var added := NewSteps(StepsOf(row), steps);
    var merged := MergedHistory(row, steps);
    forall i, j | 0 <= i < j < |merged| ensures merged[i] != merged[j] {
      if i < |row| <= j {
        assert merged[j] == added[j - |row|];
        assert merged[i] in row;
        assert added[j - |row|] in added;
      } else if |row| <= i {
        assert merged[i] == added[i - |row|] && merged[j] == added[j - |row|];
      }
    }
  }

  lemma MergeOfExtension(row: seq<StateTransition>, tail: seq<StateTransition>)
    requires DistinctSteps(row + tail)
    ensures MergedHistory(row, row + tail) == row + tail
  {
    hide NewSteps;
    var existing := StepsOf(row);
    forall s | s in tail ensures s !in existing {
      var j :| 0 <= j < |tail| && tail[j] == s;
      assert (row + tail)[|row| + j] == s;
      assert forall i | 0 <= i < |row| :: (row + tail)[i] == row[i];
    }
    NothingNew(existing, row);
    AllNew(existing, tail);
    NewStepsConcat(existing, row, tail);
  }

  /** Loading, working and saving in one transaction stores exactly the incident: for any run of
      operations on the loaded incident, the row afterwards reads back as that incident. */
  lemma SaveStoresIncident(row: Record, ops: seq<Operation>)
    requires Lawful(row)
    ensures AppliedTo(ApplyAll(row, ops), row) == ApplyAll(row, ops)
  {
    var after := ApplyAll(row, ops);
    RunKeepsLaw(row, ops);
    PathsRise(after.history, after.state);
    RunKeepsIdentity(row, ops);
    hide ApplyAll;
    hide IsPath;
    hide MergedHistory;
    var tail := after.history[|row.history|..];
    assert after.history == row.history + tail;
    MergeOfExtension(row.history, tail);
  }

  lemma {:induction false} RunKeepsIdentity(r: Record, ops: seq<Operation>)
    ensures ApplyAll(r, ops).id == r.id && ApplyAll(r, ops).createdAt == r.createdAt
    ensures ApplyAll(r, ops).fingerprint == r.fingerprint
    decreases |ops|
  {
    if ops != [] {
      RunKeepsIdentity(Apply(r, ops[0]), ops[1..]);
    }
  }
}
