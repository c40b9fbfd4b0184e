/** At-least-once delivery of opened incidents: claim the inbox key, start the investigation, commit, and
    only then delete the message. */
module Delivery {
  import opened Options
  import opened Incidents

  const OPENED := "incident.opened.v1"

  /** After as many receives as this the queue hands a copy out no more, and moves it to the dead letters. */
  const MAX_RECEIVES: nat := 3

  datatype Message = Message(eventType: string, incident: string, schema: string)

  /** One copy of a message in the queue, and how often it was received. */
  datatype Copy = Copy(message: Message, receives: nat)

  datatype Key = Key(incident: nat, eventType: string, schema: string)

  /** What one run recorded: evidence rows, audit rows, and a report or none. */
  datatype Made = Made(evidence: nat, audit: nat, report: bool)

  /** What the runner holds between runs, each row by the incident it belongs to; of the progress it keeps
      the last one only. */
  datatype Buffers = Buffers(evidence: seq<nat>, audit: seq<nat>, reports: seq<nat>, progress: Option<nat>)

  const EMPTY := Buffers([], [], [], None)

  /** An investigation as committed: its incident, what its run recorded, and the rows that went in with it. */
  datatype Investigation = Investigation(incident: nat, made: Made, rows: Buffers)

  /** The tables. */
  datatype Db = Db(states: map<nat, IncidentState>, inbox: set<Key>, investigations: seq<Investigation>)

  /** Reading a message's incident id. */
  type Parser = string -> Option<nat>

  /** How a handler that gets as far as the runner ends: it works, or it raises before the runner starts,
      while it runs, or while the rows of one buffer, already drained, are persisted. */
  datatype Fate =
    | Works | FailsEarly | FailsInRun
    | FailsAtEvidence | FailsAtAudit | FailsAtReports | FailsAtProgress

  /** What chance decides about handling a message: how the handler ends and what its run records, whether
      the commit fails, and whether the process dies between the commit and the delete. */
  datatype Attempt = Attempt(fate: Fate, made: Made, commitFails: bool, crash: bool)

  datatype Handling = Raised(buffers: Buffers) | Returned(db: Db, buffers: Buffers, started: bool)

  function KeyOf(parse: Parser, m: Message): Key
    requires parse(m.incident).Some?
  {
    Key(parse(m.incident).value, m.eventType, m.schema)
  }

  function Rows(id: nat, n: nat): (rows: seq<nat>)
    ensures |rows| == n && forall i | 0 <= i < n :: rows[i] == id
  {
    seq(n, _ => id)
  }

  /** The buffers once a run has recorded what it made; one that raises leaves the old progress. */
  function Recorded(b: Buffers, id: nat, made: Made, finished: bool): Buffers {
    Buffers(b.evidence + Rows(id, made.evidence), b.audit + Rows(id, made.audit),
            b.reports + Rows(id, if made.report then 1 else 0), if finished then Some(id) else b.progress)
  }

  /** What is left of the recorded rows: evidence is drained first, then audit rows, reports and progress. */
  function LeftBy(fate: Fate, b: Buffers, id: nat, made: Made): Buffers {
    var full := Recorded(b, id, made, fate != FailsInRun);
    match fate
    case FailsEarly => b
    case FailsInRun => full
    case FailsAtEvidence => full.(evidence := [])
    case FailsAtAudit => full.(evidence := [], audit := [])
    case FailsAtReports => EMPTY.(progress := full.progress)
    case FailsAtProgress => EMPTY
    case Works => EMPTY
  }

  /** The use case on the tables of its session and the runner's buffers. */
  function Consumed(parse: Parser, db: Db, buffers: Buffers, m: Message, fate: Fate, made: Made): Handling {
    if m.eventType != OPENED || parse(m.incident).None? then Raised(buffers)
    else
      var id, key := parse(m.incident).value, KeyOf(parse, m);
      if key in db.inbox then Returned(db, buffers, false)
      else if id !in db.states then Raised(buffers)
      else if db.states[id] != Open then Returned(db.(inbox := db.inbox + {key}), buffers, false)
      else
        var left := LeftBy(fate, buffers, id, made);
        if fate != Works then Raised(left)
        else
          var committed := Investigation(id, made, Recorded(buffers, id, made, true));
          Returned(Db(db.states[id := Investigating], db.inbox + {key}, db.investigations + [committed]), left, true)
  }

  /** The database with one session: what is saved, and what the session sees. */
  class Database {
    var saved: Db
    var session: Db

    constructor ()
      ensures saved == session == Db(map[], {}, [])
    {
      saved, session := Db(map[], {}, []), Db(map[], {}, []);
    }

    /** Insert, or do nothing on a key that is there. */
    method RecordOnce(key: Key) returns (claimed: bool)
      modifies this`session
      ensures claimed == (key !in old(session).inbox)
      ensures session == old(session).(inbox := old(session).inbox + {key})
    {
      claimed := key !in session.inbox;
      session := session.(inbox := session.inbox + {key});
    }

    method SaveState(id: nat, state: IncidentState)
      modifies this`session
      ensures session == old(session).(states := old(session).states[id := state])
    {
      session := session.(states := session.states[id := state]);
    }

    method Persist(i: Investigation)
      modifies this`session
      ensures session == old(session).(investigations := old(session).investigations + [i])
    {
      session := session.(investigations := session.investigations + [i]);
    }
  }

  /** The investigation runner: one for the whole process, its buffers emptied only by draining them. */
  class Runner {
    var evidence: seq<nat>
    var audit: seq<nat>
    var reports: seq<nat>
    var progress: Option<nat>

    function Held(): Buffers
      reads this
    {
      Buffers(evidence, audit, reports, progress)
    }

    constructor ()
      ensures Held() == EMPTY
    {
      evidence, audit, reports, progress := [], [], [], None;
    }

    /** Run the graph for one incident; a run that raises keeps the rows recorded until then. */
    method Start(id: nat, made: Made, raises: bool) returns (ok: bool)
      modifies this
      ensures ok == !raises && Held() == Recorded(old(Held()), id, made, !raises)
    {
      evidence := evidence + Rows(id, made.evidence);
      audit := audit + Rows(id, made.audit);
      reports := reports + Rows(id, if made.report then 1 else 0);
      if raises {
        return false;
      }
      progress := Some(id);
      ok := true;
    }

    method DrainEvidence() returns (rows: seq<nat>)
      modifies this`evidence
      ensures rows == old(evidence) && evidence == []
    {
      rows, evidence := evidence, [];
    }

    method DrainAudit() returns (rows: seq<nat>)
      modifies this`audit
      ensures rows == old(audit) && audit == []
    {
      rows, audit := audit, [];
    }

    method DrainReports() returns (rows: seq<nat>)
      modifies this`reports
      ensures rows == old(reports) && reports == []
    {
      rows, reports := reports, [];
    }

    method DrainProgress() returns (item: Option<nat>)
      modifies this`progress
      ensures item == old(progress) && progress == None
    {
      item, progress := progress, None;
    }

    /** The process dies and a new one takes its place. */
    method Restart()
      modifies this
      ensures Held() == EMPTY
    {
      evidence, audit, reports, progress := [], [], [], None;
    }
  }

  class Worker {
    const parse: Parser
    const db: Database
    const runner: Runner
    var queue: seq<Copy>
    var deleted: seq<Message>

    constructor (parse: Parser, db: Database, runner: Runner)
      ensures this.parse == parse && this.db == db && this.runner == runner && queue == [] && deleted == []
    {
      this.parse, this.db, this.runner := parse, db, runner;
      queue, deleted := [], [];
    }

    /** The use case: no answer means it raised. */
    method Execute(m: Message, fate: Fate, made: Made) returns (started: Option<bool>)
      modifies runner, db`session
      ensures match Consumed(parse, old(db.session), old(runner.Held()), m, fate, made)
              case Raised(b) => started == None && runner.Held() == b
              case Returned(d, b, s) => started == Some(s) && db.session == d && runner.Held() == b
    {
      if m.eventType != OPENED || parse(m.incident).None? {
        return None;
      }
      var id := parse(m.incident).value;
      ghost var before := db.session;
      var claimed := db.RecordOnce(KeyOf(parse, m));
      if !claimed {
        assert before.inbox + {KeyOf(parse, m)} == before.inbox;
        return Some(false);
      }
      if id !in db.session.states {
        return None;
      }
      if db.session.states[id] != Open {
        return Some(false);
      }
      db.SaveState(id, Investigating);
      if fate == FailsEarly {
        return None;
      }
      var ok := runner.Start(id, made, fate == FailsInRun);
      if !ok {
        return None;
      }
      var rows := DrainAll(fate);
      if rows == None {
        return None;
      }
      db.Persist(Investigation(id, made, rows.value));
      started := Some(true);
    }

    /** Drain and persist buffer by buffer; the first that fails to persist ends it with the later buffers
        still full. */
    method DrainAll(fate: Fate) returns (rows: Option<Buffers>)
      modifies runner
      ensures match fate
              case FailsAtEvidence => rows == None && runner.Held() == old(runner.Held()).(evidence := [])
              case FailsAtAudit => rows == None && runner.Held() == old(runner.Held()).(evidence := [], audit := [])
              case FailsAtReports => rows == None && runner.Held() == EMPTY.(progress := old(runner.progress))
              case FailsAtProgress => rows == None && runner.Held() == EMPTY
              case _ => rows == Some(old(runner.Held())) && runner.Held() == EMPTY
    {
      var evidence := runner.DrainEvidence();
      if fate == FailsAtEvidence {
        return None;
      }
      var audit := runner.DrainAudit();
      if fate == FailsAtAudit {
        return None;
      }
      var reports := runner.DrainReports();
      if fate == FailsAtReports {
        return None;
      }
      var progress := runner.DrainProgress();
      if fate == FailsAtProgress {
        return None;
      }
      rows := Some(Buffers(evidence, audit, reports, progress));
    }

    /** One transaction around the use case: commit, or roll everything back. */
    method HandleOpened(m: Message, a: Attempt) returns (ok: bool)
      modifies runner, db
      ensures (ok, db.saved, runner.Held()) == Handled(parse, old(db.saved), old(runner.Held()), m, a)
      ensures db.session == db.saved
    {
      db.session := db.saved;
      var started := Execute(m, a.fate, a.made);
      if started.None? || a.commitFails {
        db.session := db.saved;
        return false;
      }
      db.saved := db.session;
      ok := true;
    }

    /** Receive one message, handle it, delete it only if that worked and the process still lives. */
    method PollOnce(i: nat, a: Attempt) returns (received: bool)
      modifies this, runner, db
      ensures received == Receivable(old(queue), i)
      ensures forall dead: seq<Copy> ::
                World(db.saved, runner.Held(), queue, deleted, dead)
                == Polled(parse, World(old(db.saved), old(runner.Held()), old(queue), old(deleted), dead), i, a)
    {
      if !Receivable(queue, i) {
        return false;
      }
      var m := queue[i].message;
      queue := queue[i := Copy(m, queue[i].receives + 1)];
      var ok := HandleOpened(m, a);
      if a.crash {
        runner.Restart();
        return true;
      }
      if ok {
        queue, deleted := queue[..i] + queue[i + 1..], deleted + [m];
      }
      received := true;
    }
  }

  /** A transaction: whether it committed, the tables, the buffers. */
  function Handled(parse: Parser, db: Db, buffers: Buffers, m: Message, a: Attempt): (bool, Db, Buffers) {
    match Consumed(parse, db, buffers, m, a.fate, a.made)
    case Raised(b) => (false, db, b)
    case Returned(d, b, _) => if a.commitFails then (false, db, b) else (true, d, b)
  }

  /** What delivery works on: tables, the runner's buffers, the queue, what was deleted from it, and the dead
      letters. */
  datatype World = World(db: Db, buffers: Buffers, queue: seq<Copy>, deleted: seq<Message>, dead: seq<Copy>)

  predicate Receivable(queue: seq<Copy>, i: nat) {
    i < |queue| && queue[i].receives < MAX_RECEIVES
  }

  function Without(queue: seq<Copy>, i: nat): seq<Copy>
    requires i < |queue|
  {
    queue[..i] + queue[i + 1..]
  }

  /** The queue moves a copy received too often to the dead letters. */
  function Redriven(w: World, i: nat): World {
    if i >= |w.queue| || w.queue[i].receives < MAX_RECEIVES then w
    else w.(queue := Without(w.queue, i), dead := w.dead + [w.queue[i]])
  }

  function Polled(parse: Parser, w: World, i: nat, a: Attempt): World {
    if !Receivable(w.queue, i) then w
    else
      var m := w.queue[i].message;
      var (ok, db, buffers) := Handled(parse, w.db, w.buffers, m, a);
      var seen := w.queue[i := Copy(m, w.queue[i].receives + 1)];
      if a.crash then w.(db := db, buffers := EMPTY, queue := seen)
      else if ok then w.(db := db, buffers := buffers, queue := Without(w.queue, i), deleted := w.deleted + [m])
      else w.(db := db, buffers := buffers, queue := seen)
  }
}
