/** Safety of delivery over every interleaving of duplicates, losses, redeliveries, crashes, rollbacks and
    human transitions. */
module DeliveryRuns {
  import opened Options
  import opened Incidents
  import opened Delivery

  /** The world with what only the proof keeps: what arrived, and which incidents a human moved. */
  datatype Trace = Trace(world: World, arrived: multiset<Message>, moved: set<nat>)

  /** An incident is created; any message arrives, first copy, duplicate, replay or nonsense (a lost one
      never does); a human moves an incident; the worker polls; the queue gives a copy up; the
      worker restarts. */
  datatype Step =
    | Create(id: nat)
    | Arrive(message: Message)
    | Human(id: nat, target: IncidentState)
    | Poll(i: nat, attempt: Attempt)
    | Redrive(i: nat)
    | Restart

  function Take(parse: Parser, t: Trace, step: Step): Trace {
    var w := t.world;
    match step
    case Create(id) =>
      if id in w.db.states then t else t.(world := w.(db := w.db.(states := w.db.states[id := Open])))
    case Arrive(m) => t.(world := w.(queue := w.queue + [Copy(m, 0)]), arrived := t.arrived + multiset{m})
    case Human(id, target) =>
      if id in w.db.states && CanTransition(w.db.states[id], target)
      then t.(world := w.(db := w.db.(states := w.db.states[id := target])), moved := t.moved + {id})
      else t
    case Poll(i, a) => t.(world := Polled(parse, w, i, a))
    case Redrive(i) => t.(world := Redriven(w, i))
    case Restart => t.(world := w.(buffers := EMPTY))
  }

  function TakeAll(parse: Parser, t: Trace, steps: seq<Step>): Trace
    decreases |steps|
  {
    if steps == [] then t else TakeAll(parse, Take(parse, t, steps[0]), steps[1..])
  }

  const START := Trace(World(Db(map[], {}, []), EMPTY, [], [], []), multiset{}, {})

  /** No two committed investigations of one incident. */
  predicate OncePerIncident(investigations: seq<Investigation>) {
    forall i, j | 0 <= i < j < |investigations| :: investigations[i].incident != investigations[j].incident
  }

  predicate PastOpen(db: Db, id: nat) {
    id in db.states && db.states[id] != Open
  }

  predicate Investigated(db: Db, id: nat) {
    exists i :: 0 <= i < |db.investigations| && db.investigations[i].incident == id
  }

  /** What holds of the tables. */
  predicate SafeDb(db: Db, moved: set<nat>) {
    && OncePerIncident(db.investigations)
    && (forall key | key in db.inbox :: PastOpen(db, key.incident) && key.eventType == OPENED)
    && (forall i | 0 <= i < |db.investigations| :: PastOpen(db, db.investigations[i].incident))
    && (forall id | id in db.states && db.states[id] != Open :: id in moved || Investigated(db, id))
  }

  /** A deleted message was handled: its key is in the inbox. */
  predicate DeletedWereHandled(parse: Parser, deleted: seq<Message>, inbox: set<Key>) {
    forall i | 0 <= i < |deleted| :: parse(deleted[i].incident).Some? && KeyOf(parse, deleted[i]) in inbox
  }

  function MessagesOf(copies: seq<Copy>): (ms: seq<Message>)
    ensures |ms| == |copies| && forall i | 0 <= i < |ms| :: ms[i] == copies[i].message
  {
    seq(|copies|, i requires 0 <= i < |copies| => copies[i].message)
  }

  /** Every copy that arrived is queued, deleted or dead; the dead ones were received as often as allowed, and no
      copy more often. */
  ghost predicate Kept(queue: seq<Copy>, deleted: seq<Message>, dead: seq<Copy>, arrived: multiset<Message>) {
    && multiset(MessagesOf(queue)) + multiset(MessagesOf(dead)) + multiset(deleted) == arrived
    && (forall i | 0 <= i < |queue| :: queue[i].receives <= 3)
    && (forall i | 0 <= i < |dead| :: dead[i].receives == 3)
  }

  ghost predicate Safe(parse: Parser, t: Trace) {
    && SafeDb(t.world.db, t.moved)
    && DeletedWereHandled(parse, t.world.deleted, t.world.db.inbox)
    && Kept(t.world.queue, t.world.deleted, t.world.dead, t.arrived)
  }

  /** Allowed moves never lead back to open. */
  lemma NeverBackToOpen(s: IncidentState, target: IncidentState)
    requires CanTransition(s, target)
    ensures target != Open
  {
  }

  lemma MoreInvestigations(db: Db, more: Db, i: Investigation)
    requires more.investigations == db.investigations + [i]
    ensures forall id :: Investigated(more, id) <==> Investigated(db, id) || id == i.incident
  {
    forall id ensures Investigated(more, id) <==> Investigated(db, id) || id == i.incident {
      if Investigated(db, id) {
        var k :| 0 <= k < |db.investigations| && db.investigations[k].incident == id;
        assert more.investigations[k].incident == id;
      }
      assert more.investigations[|db.investigations|] == i;
    }
  }

  /** A transaction keeps the tables safe, only adds to the inbox, and when it commits the message's key
      is there. */
  lemma HandledIsSafe(parse: Parser, db: Db, buffers: Buffers, m: Message, a: Attempt, moved: set<nat>)
    requires SafeDb(db, moved)
    ensures var (ok, after, _) := Handled(parse, db, buffers, m, a);
            && SafeDb(after, moved) && db.inbox <= after.inbox
            && (ok ==> parse(m.incident).Some? && KeyOf(parse, m) in after.inbox)
            && (!ok ==> after == db)
  {
    var handling := Consumed(parse, db, buffers, m, a.fate, a.made);
    if handling.Returned? && handling.started {
      var id := parse(m.incident).value;
      MoreInvestigations(db, handling.db, Investigation(id, a.made, Recorded(buffers, id, a.made, true)));
      hide Investigated;
    }
  }

  /** What one transaction does to the tables, exactly: nothing if it fails; else it claims the message's key
      and, for an open incident claimed for the first time, starts its one investigation, moving it to
      investigating. */
  lemma HandledExactly(parse: Parser, db: Db, buffers: Buffers, m: Message, a: Attempt)
    ensures var (ok, after, _) := Handled(parse, db, buffers, m, a);
            && (!ok ==> after == db)
            && (ok <==>
                  && m.eventType == "incident.opened.v1" && parse(m.incident).Some? && !a.commitFails
                  && (KeyOf(parse, m) in db.inbox
                      || (parse(m.incident).value in db.states
                          && (db.states[parse(m.incident).value] == Open ==> a.fate == Works))))
            && (ok ==>
                  var id, key := parse(m.incident).value, Key(parse(m.incident).value, m.eventType, m.schema);
                  var starts := key !in db.inbox && db.states[id] == Open;
                  && after.inbox == db.inbox + {key}
                  && after.states == (if starts then db.states[id := Investigating] else db.states)
                  && |after.investigations| == |db.investigations| + (if starts then 1 else 0)
                  && db.investigations <= after.investigations
                  && (starts ==> after.investigations[|db.investigations|].incident == id
                                 && after.investigations[|db.investigations|].made == a.made))
  {
    hide LeftBy;
  }

  lemma PollIsSafe(parse: Parser, t: Trace, i: nat, a: Attempt)
    requires Safe(parse, t)
    ensures Safe(parse, Take(parse, t, Poll(i, a)))
  {
    hide SafeDb;
    hide Handled;
    hide KeyOf;
    hide Kept;
    hide Without;
    var w := t.world;
    if Receivable(w.queue, i) {
      var m := w.queue[i].message;
      HandledIsSafe(parse, w.db, w.buffers, m, a, t.moved);
      var after := Handled(parse, w.db, w.buffers, m, a);
      StillHandled(parse, w.deleted, w.db.inbox, m, after.1.inbox);
      hide DeletedWereHandled;
      ReceiptIsKept(w.queue, w.deleted, w.dead, i, t.arrived);
      DeletionIsKept(w.queue, w.deleted, w.dead, i, t.arrived);
    }
  }

  lemma ReceiptIsKept(queue: seq<Copy>, deleted: seq<Message>, dead: seq<Copy>, i: nat, arrived: multiset<Message>)
    requires Kept(queue, deleted, dead, arrived) && Receivable(queue, i)
    ensures Kept(queue[i := Copy(queue[i].message, queue[i].receives + 1)], deleted, dead, arrived)
  {
    assert MessagesOf(queue[i := Copy(queue[i].message, queue[i].receives + 1)]) == MessagesOf(queue);
  }

  lemma DeletionIsKept(queue: seq<Copy>, deleted: seq<Message>, dead: seq<Copy>, i: nat, arrived: multiset<Message>)
    requires Kept(queue, deleted, dead, arrived) && i < |queue|
    ensures Kept(Without(queue, i), deleted + [queue[i].message], dead, arrived)
  {
    TakenOut(queue, i);
    var m := queue[i].message;
    assert multiset(deleted + [m]) == multiset(deleted) + multiset{m};
  }

  lemma RedriveIsKept(queue: seq<Copy>, deleted: seq<Message>, dead: seq<Copy>, i: nat, arrived: multiset<Message>)
    requires Kept(queue, deleted, dead, arrived) && i < |queue| && queue[i].receives == 3
    ensures Kept(Without(queue, i), deleted, dead + [queue[i]], arrived)
  {
    TakenOut(queue, i);
    var m := queue[i].message;
    assert MessagesOf(dead + [queue[i]]) == MessagesOf(dead) + [m];
    assert multiset(MessagesOf(dead) + [m]) == multiset(MessagesOf(dead)) + multiset{m};
  }

  lemma RedriveIsSafe(parse: Parser, t: Trace, i: nat)
    requires Safe(parse, t)
    ensures Safe(parse, Take(parse, t, Redrive(i)))
  {
    hide SafeDb;
    hide DeletedWereHandled;
    hide Without;
    var w := t.world;
    if i < |w.queue| && w.queue[i].receives >= MAX_RECEIVES {
      RedriveIsKept(w.queue, w.deleted, w.dead, i, t.arrived);
      hide Kept;
    }
  }

  lemma StillHandled(parse: Parser, deleted: seq<Message>, inbox: set<Key>, m: Message, after: set<Key>)
    requires DeletedWereHandled(parse, deleted, inbox) && inbox <= after
    ensures DeletedWereHandled(parse, deleted, after)
    ensures parse(m.incident).Some? && KeyOf(parse, m) in after ==> DeletedWereHandled(parse, deleted + [m], after)
  {
    hide KeyOf;
  }

  lemma TakenOut(queue: seq<Copy>, i: nat)
    requires i < |queue|
    ensures multiset(MessagesOf(Without(queue, i))) + multiset{queue[i].message} == multiset(MessagesOf(queue))
  {
    var all := MessagesOf(queue);
    assert MessagesOf(Without(queue, i)) == all[..i] + all[i + 1..];
    assert all == all[..i] + [all[i]] + all[i + 1..];
  }

  lemma ArrivalIsSafe(parse: Parser, t: Trace, m: Message)
    requires Safe(parse, t)
    ensures Safe(parse, Take(parse, t, Arrive(m)))
  {
    hide SafeDb;
    hide DeletedWereHandled;
    var queue := t.world.queue;
    assert MessagesOf(queue + [Copy(m, 0)]) == MessagesOf(queue) + [m];
    assert multiset(MessagesOf(queue) + [m]) == multiset(MessagesOf(queue)) + multiset{m};
  }

  lemma StepIsSafe(parse: Parser, t: Trace, step: Step)
    requires Safe(parse, t)
    ensures Safe(parse, Take(parse, t, step))
  {
    match step
    case Poll(i, a) => PollIsSafe(parse, t, i, a);
    case Human(id, target) => HumanIsSafe(parse, t, id, target);
    case Create(id) => CreateIsSafe(parse, t, id);
    case Arrive(m) => ArrivalIsSafe(parse, t, m);
    case Redrive(i) => RedriveIsSafe(parse, t, i);
    case Restart =>
      hide SafeDb;
  }

  lemma SameInvestigations(x: Db, y: Db)
    requires x.investigations == y.investigations
    ensures forall id :: Investigated(x, id) == Investigated(y, id)
  {
  }

  /** A state set to what is not open, of an incident a human moved, or a new incident. */
  lemma StateIsSafe(db: Db, moved: set<nat>, id: nat, state: IncidentState)
    requires SafeDb(db, moved)
    requires (id in db.states && state != Open) || (id !in db.states && state == Open)
    ensures SafeDb(db.(states := db.states[id := state]), if state == Open then moved else moved + {id})
  {
    var after := db.(states := db.states[id := state]);
    SameInvestigations(db, after);
    hide Investigated;
    hide OncePerIncident;
    forall key | key in after.inbox ensures PastOpen(after, key.incident) && key.eventType == OPENED {
      assert PastOpen(db, key.incident);
    }
    forall i | 0 <= i < |after.investigations| ensures PastOpen(after, after.investigations[i].incident) {
      assert PastOpen(db, db.investigations[i].incident);
    }
  }

  lemma HumanIsSafe(parse: Parser, t: Trace, id: nat, target: IncidentState)
    requires Safe(parse, t)
    ensures Safe(parse, Take(parse, t, Human(id, target)))
  {
    hide SafeDb;
    hide CanTransition;
    hide Kept;
    hide DeletedWereHandled;
    if id in t.world.db.states && CanTransition(t.world.db.states[id], target) {
      NeverBackToOpen(t.world.db.states[id], target);
      StateIsSafe(t.world.db, t.moved, id, target);
    }
  }

  lemma CreateIsSafe(parse: Parser, t: Trace, id: nat)
    requires Safe(parse, t)
    ensures Safe(parse, Take(parse, t, Create(id)))
  {
    hide SafeDb;
    hide Kept;
    hide DeletedWereHandled;
    if id !in t.world.db.states {
      StateIsSafe(t.world.db, t.moved, id, Open);
    }
  }

  /** Over every interleaving: each incident has at most one committed investigation, whatever schema
      versions its messages carry; an inbox key means its incident exists and is no longer open; an
      incident that left open was investigated or moved by a human; a message is deleted only with its key
      in the inbox; every copy that arrived is still queued, was deleted so, or is dead; and a dead one was
      received three times, no copy more often. */
  lemma {:induction false} DeliveryIsSafe(parse: Parser, t: Trace, steps: seq<Step>)
    requires Safe(parse, t)
    ensures Safe(parse, TakeAll(parse, t, steps))
    decreases |steps|
  {
    hide Safe;
    hide Take;
    if steps != [] {
      StepIsSafe(parse, t, steps[0]);
      DeliveryIsSafe(parse, Take(parse, t, steps[0]), steps[1..]);
    }
  }

  /** From a world with nothing in it, therefore, every run is safe. */
  lemma EveryRunIsSafe(parse: Parser, steps: seq<Step>)
    ensures Safe(parse, TakeAll(parse, START, steps))
  {
    DeliveryIsSafe(parse, START, steps);
  }

  /** A message handled once stays handled: delivering it again, any number of times and with any luck,
      changes nothing in the tables or the buffers. */
  lemma RedeliveryChangesNothing(parse: Parser, db: Db, buffers: Buffers, m: Message, a: Attempt,
                                 again: Db, buffers2: Buffers, a2: Attempt)
    requires Handled(parse, db, buffers, m, a).0
    requires Handled(parse, db, buffers, m, a).1.inbox <= again.inbox
    ensures Handled(parse, again, buffers2, m, a2) == (!a2.commitFails, again, buffers2)
  {
  }

  // ----- whose rows are committed ---------------------------------------------------------

  /** The message gets as far as the runner. */
  predicate Starts(parse: Parser, db: Db, m: Message) {
    && m.eventType == OPENED && parse(m.incident).Some? && KeyOf(parse, m) !in db.inbox
    && parse(m.incident).value in db.states && db.states[parse(m.incident).value] == Open
  }

  /** The rows that went in are those its own run recorded. */
  predicate Own(i: Investigation) {
    i.rows == Recorded(EMPTY, i.incident, i.made, true)
  }

  predicate OwnRows(db: Db) {
    forall i | 0 <= i < |db.investigations| :: Own(db.investigations[i])
  }

  /** Nothing is waiting to be drained but perhaps a progress, which the next run replaces. */
  predicate NoRows(b: Buffers) {
    b.evidence == [] && b.audit == [] && b.reports == []
  }

  lemma PrefixedIsLonger(x: seq<nat>, y: seq<nat>)
    ensures x + y == [] + y <==> x == []
  {
    if x != [] {
      assert |x + y| > |[] + y|;
    }
  }

  /** Rows that were waiting go in with those of the run. */
  lemma RecordedIsOwn(b: Buffers, id: nat, made: Made)
    ensures Own(Investigation(id, made, Recorded(b, id, made, true))) <==> NoRows(b)
  {
    PrefixedIsLonger(b.evidence, Rows(id, made.evidence));
    PrefixedIsLonger(b.audit, Rows(id, made.audit));
    PrefixedIsLonger(b.reports, Rows(id, if made.report then 1 else 0));
  }

  /** A committed investigation holds its own rows alone exactly when the evidence, audit and report buffers
      were empty as it began. */
  lemma OwnRowsExactly(parse: Parser, db: Db, buffers: Buffers, m: Message, a: Attempt)
    requires Starts(parse, db, m) && a.fate == Works && !a.commitFails
    ensures OwnRows(Handled(parse, db, buffers, m, a).1) <==> OwnRows(db) && NoRows(buffers)
  {
    hide Own;
    var after := Handled(parse, db, buffers, m, a).1;
    var n := |db.investigations|;
    var id := parse(m.incident).value;
    RecordedIsOwn(buffers, id, a.made);
    assert after.investigations[n] == Investigation(id, a.made, Recorded(buffers, id, a.made, true));
    assert forall i | 0 <= i < n :: after.investigations[i] == db.investigations[i];
  }

  /** The ending keeps rows of this run back: all of them if the run raises, audit rows and report if
      persisting evidence fails, the report if persisting audit rows does. */
  predicate KeepsBack(fate: Fate, made: Made) {
    match fate
    case FailsInRun => made.evidence > 0 || made.audit > 0 || made.report
    case FailsAtEvidence => made.audit > 0 || made.report
    case FailsAtAudit => made.report
    case _ => false
  }

  lemma LeftoversExactly(fate: Fate, b: Buffers, id: nat, made: Made)
    requires NoRows(b)
    ensures NoRows(LeftBy(fate, b, id, made)) <==> !KeepsBack(fate, made)
  {
  }

  /** Handling a message leaves rows waiting exactly when it gets to the runner, ends so that rows are kept
      back, and the process survives. */
  lemma PollLeavesExactly(parse: Parser, w: World, i: nat, a: Attempt)
    requires NoRows(w.buffers)
    ensures NoRows(Polled(parse, w, i, a).buffers)
       <==> !(Receivable(w.queue, i) && Starts(parse, w.db, w.queue[i].message)
              && KeepsBack(a.fate, a.made) && !a.crash)
  {
    hide LeftBy;
    hide KeepsBack;
    if Receivable(w.queue, i) && Starts(parse, w.db, w.queue[i].message) {
      var id := parse(w.queue[i].message.incident).value;
      LeftoversExactly(a.fate, w.buffers, id, a.made);
      WorksLeavesNothing(w.buffers, id, a.made);
    }
  }

  lemma WorksLeavesNothing(b: Buffers, id: nat, made: Made)
    ensures LeftBy(Works, b, id, made) == EMPTY
  {
  }

  /** Of evidence alone: after a handler that began with none some waits exactly when the handler got to the
      runner, the run raised with evidence recorded, and the process survived. */
  lemma EvidenceWaitsExactly(parse: Parser, w: World, i: nat, a: Attempt)
    requires w.buffers.evidence == []
    ensures Polled(parse, w, i, a).buffers.evidence != []
       <==> Receivable(w.queue, i) && Starts(parse, w.db, w.queue[i].message)
            && a.fate == FailsInRun && a.made.evidence > 0 && !a.crash
  {
    if Receivable(w.queue, i) && Starts(parse, w.db, w.queue[i].message) {
      WorksLeavesNothing(w.buffers, parse(w.queue[i].message.incident).value, a.made);
    }
  }

  /** The step does not make a handler that got to the runner raise with rows kept back while the process
      lives on. */
  predicate CleanStep(parse: Parser, w: World, step: Step) {
    step.Poll? ==>
      !(Receivable(w.queue, step.i) && Starts(parse, w.db, w.queue[step.i].message)
        && KeepsBack(step.attempt.fate, step.attempt.made) && !step.attempt.crash)
  }

  predicate CleanRun(parse: Parser, t: Trace, steps: seq<Step>)
    decreases |steps|
  {
    steps == [] || (CleanStep(parse, t.world, steps[0]) && CleanRun(parse, Take(parse, t, steps[0]), steps[1..]))
  }

  /** The step commits no investigation, or one that began with nothing waiting. */
  predicate CommitsOwn(parse: Parser, w: World, step: Step) {
    (step.Poll? && Receivable(w.queue, step.i) && Starts(parse, w.db, w.queue[step.i].message)
     && step.attempt.fate == Works && !step.attempt.commitFails) ==>
      NoRows(w.buffers)
  }

  predicate AllCommitOwn(parse: Parser, t: Trace, steps: seq<Step>)
    decreases |steps|
  {
    steps == [] || (CommitsOwn(parse, t.world, steps[0]) && AllCommitOwn(parse, Take(parse, t, steps[0]), steps[1..]))
  }

  lemma PollCommits(parse: Parser, w: World, i: nat, a: Attempt)
    ensures OwnRows(Polled(parse, w, i, a).db) <==> OwnRows(w.db) && CommitsOwn(parse, w, Poll(i, a))
  {
    if Receivable(w.queue, i) && Starts(parse, w.db, w.queue[i].message) && a.fate == Works && !a.commitFails {
      OwnRowsExactly(parse, w.db, w.buffers, w.queue[i].message, a);
    }
    hide Own;
    hide LeftBy;
  }

  /** Over every run: all committed investigations hold their own rows alone exactly when each began with
      nothing waiting. */
  lemma {:induction false} RunOwnsExactly(parse: Parser, t: Trace, steps: seq<Step>)
    ensures OwnRows(TakeAll(parse, t, steps).world.db) <==> OwnRows(t.world.db) && AllCommitOwn(parse, t, steps)
    decreases |steps|
  {
    hide Polled;
    hide Own;
    if steps != [] {
      if steps[0].Poll? {
        PollCommits(parse, t.world, steps[0].i, steps[0].attempt);
      }
      hide CommitsOwn;
      RunOwnsExactly(parse, Take(parse, t, steps[0]), steps[1..]);
    }
  }

  lemma {:induction false} CleanRunsLeaveNothing(parse: Parser, t: Trace, steps: seq<Step>)
    requires NoRows(t.world.buffers) && CleanRun(parse, t, steps)
    ensures AllCommitOwn(parse, t, steps) && NoRows(TakeAll(parse, t, steps).world.buffers)
    decreases |steps|
  {
    hide Polled;
    hide KeepsBack;
    if steps != [] {
      if steps[0].Poll? {
        PollLeavesExactly(parse, t.world, steps[0].i, steps[0].attempt);
      }
      CleanRunsLeaveNothing(parse, Take(parse, t, steps[0]), steps[1..]);
    }
  }

  /** As long as no handler ends so, every committed investigation holds its own evidence, audit rows, report
      and progress, and nothing else. */
  lemma CleanRunsKeepOwnRows(parse: Parser, t: Trace, steps: seq<Step>)
    requires OwnRows(t.world.db) && NoRows(t.world.buffers) && CleanRun(parse, t, steps)
    ensures OwnRows(TakeAll(parse, t, steps).world.db) && NoRows(TakeAll(parse, t, steps).world.buffers)
  {
    hide Own;
    hide CleanRun;
    hide TakeAll;
    CleanRunsLeaveNothing(parse, t, steps);
    RunOwnsExactly(parse, t, steps);
  }

  /** Whatever a run leaves, it leaves its own rows. */
  lemma LeftAreOfRun(fate: Fate, id: nat, made: Made)
    ensures var left := LeftBy(fate, EMPTY, id, made);
            forall row | row in left.evidence + left.audit + left.reports :: row == id
  {
  }

  /** Rows kept back are committed with the next investigation, of the same incident or another, though the
      handling that recorded them was rolled back: the second commits what the first left, all of it rows of
      the first one's incident, and holds rows that its own run did not record exactly when the first kept rows
      back. Its progress is its own in every case. */
  lemma FailureLeaksRows(parse: Parser, db: Db, first: Message, a: Attempt, second: Message, made: Made)
    requires OwnRows(db) && Starts(parse, db, first) && Starts(parse, db, second) && a.fate != Works
    ensures var f, s := parse(first.incident).value, parse(second.incident).value;
            var left := LeftBy(a.fate, EMPTY, f, a.made);
            var (ok1, db1, buffers1) := Handled(parse, db, EMPTY, first, a);
            var (ok2, db2, _) := Handled(parse, db1, buffers1, second, Attempt(Works, made, false, false));
            && !ok1 && db1 == db && ok2
            && db2.investigations == db.investigations + [Investigation(s, made, Recorded(left, s, made, true))]
            && Recorded(left, s, made, true).progress == Some(s)
            && (forall row | row in left.evidence + left.audit + left.reports :: row == f)
            && (OwnRows(db2) <==> !KeepsBack(a.fate, a.made))
  {
    var left := LeftBy(a.fate, EMPTY, parse(first.incident).value, a.made);
    LeftoversExactly(a.fate, EMPTY, parse(first.incident).value, a.made);
    LeftAreOfRun(a.fate, parse(first.incident).value, a.made);
    OwnRowsExactly(parse, db, left, second, Attempt(Works, made, false, false));
    hide Own;
    hide KeepsBack;
    hide LeftBy;
  }
}
