/** What holds after any sequence of admin operations. */
module PolicyHistory {
  import opened Options
  import opened Policy
  import opened PolicyVersion
  import opened PolicyAdmin
  import Text

  /** Ids match, every rule is one the constructor accepts, and no two share tool, class and scope. */
  predicate Sound(table: Table) {
    && Keyed(table)
    && (forall id | id in table :: ValidRule(table[id]))
    && (forall a, b | a in table && b in table && a != b :: KeyOf(table[a]) != KeyOf(table[b]))
  }

  function ApplyAll(desk: Desk, requests: seq<Request>): Desk
    decreases |requests|
  {
    if requests == [] then desk else ApplyAll(Apply(desk, requests[0]).0, requests[1..])
  }

  // ----- rules ----------------------------------------------------------------------------

  lemma MadeRuleIsValid(r: Rule)
    requires MakeRule(r).Some?
    ensures ValidRule(MakeRule(r).value)
    ensures var m := MakeRule(r).value; m.id == r.id && m.version == r.version
  {
    Text.StripTwice(r.tool);
    Text.StripTwice(r.scope);
    Text.StripTwice(r.reason);
    Text.StripTwice(r.createdBy);
    Text.StripTwice(r.updatedBy);
  }

  /** The row an accepted create or update writes. */
  lemma WrittenRule(desk: Desk, req: Request)
    requires Sound(desk.table) && Apply(desk, req).1.Stored?
    ensures var r := Apply(desk, req).1.rule;
            && ValidRule(r) && r.id == req.id
            && (req.Create? ==> r.version == 1 && r.id !in desk.table)
            && (req.Update? ==> r.id in desk.table && r.version == desk.table[r.id].version + 1)
            && !KeyTaken(desk.table, r)
            && Apply(desk, req).0.table == desk.table[r.id := r]
  {
    hide MakeRule;
    hide ValidRule;
    hide ParseClass;
    match req
    case Create(actor, tool, _, scope, allowed, reason, id, now) =>
      var cls := ParseClass(req.actionClass).value;
      MadeRuleIsValid(Rule(id, tool, cls, scope, allowed, reason, actor, actor, now, now, 1));
    case Update(id, actor, p, now) =>
      var e := desk.table[id];
      var cls := if p.actionClass.Some? then ParseClass(p.actionClass.value) else Some(e.actionClass);
      MadeRuleIsValid(e.(tool := Or(p.tool, e.tool), actionClass := cls.value,
                         scope := Or(p.scope, e.scope), allowed := Or(p.allowed, e.allowed),
                         reason := Or(p.reason, e.reason), updatedBy := actor,
                         updatedAt := now, version := e.version + 1));
    case Delete(_, _, _) =>
  }

  lemma StepKeepsSound(desk: Desk, req: Request)
    requires Sound(desk.table)
    ensures Sound(Apply(desk, req).0.table)
  {
    hide ValidRule;
    hide KeyOf;
    hide MakeRule;
    hide ParseClass;
    hide SnapshotOf;
    var (after, outcome) := Apply(desk, req);
    if outcome.Stored? {
      WrittenRule(desk, req);
      hide Apply;
      var r := outcome.rule;
      forall a, b | a in after.table && b in after.table && a != b
        ensures KeyOf(after.table[a]) != KeyOf(after.table[b])
      {
      }
    }
  }

  // ----- the log --------------------------------------------------------------------------

  type Snapshots = map<string, Snapshot>

  function SnapshotsOf(table: Table): Snapshots {
    map id | id in table :: SnapshotOf(table[id])
  }

  function ReplayOne(at: Snapshots, change: Change): Snapshots {
    if change.after.Some? then at[change.ruleId := change.after.value] else at - {change.ruleId}
  }

  /** The table rebuilt from a starting table and a log. */
  function Replay(start: Snapshots, log: seq<Change>): Snapshots {
    if log == [] then start else ReplayOne(Replay(start, log[..|log| - 1]), log[|log| - 1])
  }

  function Lookup(at: Snapshots, id: string): Option<Snapshot> {
    if id in at then Some(at[id]) else None
  }

  /** Each entry's `before` is what the entries ahead of it left, and its action fits its two sides. */
  predicate Consistent(start: Snapshots, log: seq<Change>) {
    log == []
    || (var front, last := log[..|log| - 1], log[|log| - 1];
        && Consistent(start, front)
        && last.before == Lookup(Replay(start, front), last.ruleId)
        && (last.action == Created <==> last.before.None?)
        && (last.action == Deleted <==> last.after.None?)
        && (last.after.Some? ==> last.after.value.id == last.ruleId))
  }

  /** The version a rule had when it came in: 1 when the log created it, else what it started with. */
  function Born(start: Snapshots, log: seq<Change>, id: string): int {
    if log == [] then (if id in start then start[id].version else 0)
    else
      var last := log[|log| - 1];
      if last.ruleId == id && last.action == Created then 1 else Born(start, log[..|log| - 1], id)
  }

  /** Updates of a rule since it came in. */
  function Edits(log: seq<Change>, id: string): nat {
    if log == [] then 0
    else
      var last := log[|log| - 1];
      if last.ruleId != id then Edits(log[..|log| - 1], id)
      else if last.action == Updated then Edits(log[..|log| - 1], id) + 1
      else 0
  }

  /** The log since some start accounts for the table. */
  ghost predicate Accounted(start: Snapshots, log: seq<Change>, table: Table) {
    && Replay(start, log) == SnapshotsOf(table)
    && Consistent(start, log)
    && forall id | id in table :: table[id].version == Born(start, log, id) + Edits(log, id)
  }

  lemma OneMoreChange(start: Snapshots, log: seq<Change>, change: Change, id: string)
    ensures Replay(start, log + [change]) == ReplayOne(Replay(start, log), change)
    ensures Born(start, log + [change], id)
         == if change.ruleId == id && change.action == Created then 1 else Born(start, log, id)
    ensures Edits(log + [change], id)
         == if change.ruleId != id then Edits(log, id) else if change.action == Updated then Edits(log, id) + 1 else 0
    ensures Consistent(start, log + [change])
       <==> && Consistent(start, log)
            && change.before == Lookup(Replay(start, log), change.ruleId)
            && (change.action == Created <==> change.before.None?)
            && (change.action == Deleted <==> change.after.None?)
            && (change.after.Some? ==> change.after.value.id == change.ruleId)
  {
    var more := log + [change];
    assert more != [] && more[..|more| - 1] == log && more[|more| - 1] == change;
    hide ReplayOne;
  }

  /** An entry says truly what happened to the table. */
  predicate Tells(t: Table, change: Change, t': Table) {
    && change.before == Lookup(SnapshotsOf(t), change.ruleId)
    && SnapshotsOf(t') == ReplayOne(SnapshotsOf(t), change)
    && (change.action == Created <==> change.before.None?)
    && (change.action == Deleted <==> change.after.None?)
    && (change.after.Some? ==> change.after.value.id == change.ruleId)
    && (forall id | id in t' && id != change.ruleId :: id in t && t'[id] == t[id])
    && (change.ruleId in t' ==>
          match change.action
          case Created => t'[change.ruleId].version == 1
          case Updated =>
            change.ruleId in t && t'[change.ruleId].version == t[change.ruleId].version + 1
          case Deleted => false)
  }

  /** Writing a row replays as its snapshot. */
  lemma WriteReplays(t: Table, r: Rule, change: Change)
    requires change.ruleId == r.id && change.after == Some(SnapshotOf(r))
    ensures SnapshotsOf(t[r.id := r]) == ReplayOne(SnapshotsOf(t), change)
  {
    hide SnapshotOf;
  }

  lemma StoreTells(desk: Desk, req: Request, change: Change)
    requires Sound(desk.table) && !req.Delete?
    requires !Apply(desk, req).1.Refused? && Apply(desk, req).0.changes == desk.changes + [change]
    ensures Tells(desk.table, change, Apply(desk, req).0.table)
  {
    hide ValidRule;
    hide MakeRule;
    hide KeyTaken;
    hide ParseClass;
    hide KeyOf;
    hide NewRule;
    hide Replaced;
    hide ReplayOne;
    var (after, outcome) := Apply(desk, req);
    WrittenRule(desk, req);
    hide Sound;
    assert change == after.changes[|desk.changes|];
    WriteReplays(desk.table, outcome.rule, change);
  }

  lemma DeleteTells(desk: Desk, req: Request, change: Change)
    requires req.Delete? && Keyed(desk.table)
    requires !Apply(desk, req).1.Refused? && Apply(desk, req).0.changes == desk.changes + [change]
    ensures Tells(desk.table, change, Apply(desk, req).0.table)
  {
    hide SnapshotOf;
    assert change == Apply(desk, req).0.changes[|desk.changes|];
  }

  /** The entry of an accepted operation tells what it did. */
  lemma EntryFits(desk: Desk, req: Request, change: Change)
    requires Sound(desk.table)
    requires !Apply(desk, req).1.Refused? && Apply(desk, req).0.changes == desk.changes + [change]
    ensures Tells(desk.table, change, Apply(desk, req).0.table)
  {
    hide Apply;
    hide Tells;
    if req.Delete? {
      DeleteTells(desk, req, change);
    } else {
      StoreTells(desk, req, change);
    }
  }

  lemma ChangeAccounted(start: Snapshots, log: seq<Change>, desk: Desk, req: Request, change: Change)
    requires Sound(desk.table) && Accounted(start, log, desk.table)
    requires !Apply(desk, req).1.Refused? && Apply(desk, req).0.changes == desk.changes + [change]
    ensures Accounted(start, log + [change], Apply(desk, req).0.table)
  {
    hide Sound;
    hide Apply;
    hide Lookup;
    EntryFits(desk, req, change);
    OneMoreChange(start, log, change, change.ruleId);
    hide Replay;
    hide Born;
    hide Edits;
    hide Consistent;
    hide SnapshotsOf;
    hide ReplayOne;
    var t' := Apply(desk, req).0.table;
    forall id | id in t'
      ensures t'[id].version == Born(start, log + [change], id) + Edits(log + [change], id)
    {
      OneMoreChange(start, log, change, id);
    }
  }

  /** Over every run of creates, updates and deletes: keys stay unique and rules valid; the log entries
      added replay to the current table, each one's `before` being what the earlier ones left; and each
      rule's version is what it came in with plus its updates since. */
  lemma {:induction false} RunIsAccounted(start: Snapshots, base: seq<Change>, log: seq<Change>, desk: Desk,
                                          requests: seq<Request>)
    requires Sound(desk.table) && Accounted(start, log, desk.table) && desk.changes == base + log
    ensures var after := ApplyAll(desk, requests);
            && Sound(after.table)
            && base <= after.changes
            && Accounted(start, after.changes[|base|..], after.table)
    decreases |requests|
  {
    hide Sound;
    hide Accounted;
    if requests == [] {
      assert desk.changes[|base|..] == log;
    } else {
      var (next, outcome) := Apply(desk, requests[0]);
      StepKeepsSound(desk, requests[0]);
      if outcome.Refused? {
        RefusedChangesNothing(desk, requests[0]);
        RunIsAccounted(start, base, log, next, requests[1..]);
      } else {
        var change := LogsOne(desk, requests[0]);
        ChangeAccounted(start, log, desk, requests[0], change);
        assert next.changes == base + (log + [change]);
        RunIsAccounted(start, base, log + [change], next, requests[1..]);
      }
    }
  }

  lemma RefusedChangesNothing(desk: Desk, req: Request)
    ensures Apply(desk, req).1.Refused? ==> Apply(desk, req).0 == desk
  {
  }

  lemma LogsOne(desk: Desk, req: Request) returns (change: Change)
    requires !Apply(desk, req).1.Refused?
    ensures Apply(desk, req).0.changes == desk.changes + [change]
  {
    change := Apply(desk, req).0.changes[|desk.changes|];
  }

  /** The same, stated from the start of a run. */
  lemma HistoryHolds(table: Table, requests: seq<Request>)
    requires Sound(table)
    ensures var after := ApplyAll(Desk(table, []), requests);
            && Sound(after.table)
            && Replay(SnapshotsOf(table), after.changes) == SnapshotsOf(after.table)
            && Consistent(SnapshotsOf(table), after.changes)
            && forall id | id in after.table ::
                 after.table[id].version == Born(SnapshotsOf(table), after.changes, id) + Edits(after.changes, id)
  {
    hide ValidRule;
    hide KeyOf;
    hide Apply;
    hide ApplyAll;
    var after := ApplyAll(Desk(table, []), requests);
    RunIsAccounted(SnapshotsOf(table), [], [], Desk(table, []), requests);
    assert after.changes[0..] == after.changes;
  }

  // ----- versions -------------------------------------------------------------------------

  /** A rule set that holds the table has the row of every rule, once. */
  lemma RowsAreTheTable(rules: seq<Rule>, table: Table, row: Row)
    requires Holds(rules, table)
    ensures multiset(RowsOf(rules))[row] == if row.id in table && RowOf(table[row.id]) == row then 1 else 0
  {
    var rows := RowsOf(rules);
    CountOnce(rows, row);
    if row in rows {
      var i :| 0 <= i < |rows| && rows[i] == row;
      assert rules[i] in rules;
    }
    if row.id in table && RowOf(table[row.id]) == row {
      var i :| 0 <= i < |rules| && rules[i] == table[row.id];
      assert rows[i] == row;
    }
  }

  lemma {:induction false} CountOnce(rows: seq<Row>, row: Row)
    requires forall i, j | 0 <= i < j < |rows| :: rows[i] != rows[j]
    ensures multiset(rows)[row] == if row in rows then 1 else 0
  {
    if rows != [] {
      CountOnce(rows[1..], row);
      assert rows == [rows[0]] + rows[1..];
    }
  }

  /** Whether the table has a row: the multiplicity of the row in any rule set that holds the table. */
  function HasRow(table: Table, row: Row): nat {
    if row.id in table && RowOf(table[row.id]) == row then 1 else 0
  }

  predicate SameRows(t: Table, u: Table) {
    t.Keys == u.Keys && forall id | id in t :: RowOf(t[id]) == RowOf(u[id])
  }

  lemma RowsDecide(t: Table, u: Table)
    requires Keyed(t) && Keyed(u)
    ensures SameRows(t, u) <==> forall row :: HasRow(t, row) == HasRow(u, row)
  {
    if forall row :: HasRow(t, row) == HasRow(u, row) {
      forall id | id in t ensures id in u && RowOf(t[id]) == RowOf(u[id]) {
        assert HasRow(t, RowOf(t[id])) == HasRow(u, RowOf(t[id]));
      }
      forall id | id in u ensures id in t {
        assert HasRow(t, RowOf(u[id])) == HasRow(u, RowOf(u[id]));
      }
    }
    if SameRows(t, u) {
      forall row ensures HasRow(t, row) == HasRow(u, row) {
        assert row.id in t.Keys <==> row.id in u.Keys;
      }
    }
  }

  /** The version is a property of the table: every rule set holding it, in any order, has the same one,
      and a table with a different row has another. */
  lemma VersionOfTable(hash: RowHash, x: seq<Rule>, t: Table, y: seq<Rule>, u: Table)
    requires NoCollision(hash, x, y) && Keyed(t) && Keyed(u) && Holds(x, t) && Holds(y, u)
    ensures VersionFor(hash, x) == VersionFor(hash, y) <==> SameRows(t, u)
  {
    VersionIdentifies(hash, x, y);
    RowsDecide(t, u);
    hide VersionFor;
    hide SameRows;
    hide HasRow;
    hide Holds;
    forall row ensures multiset(RowsOf(x))[row] == HasRow(t, row) && multiset(RowsOf(y))[row] == HasRow(u, row) {
      RowsAreTheTable(x, t, row);
      RowsAreTheTable(y, u, row);
    }
  }

  /** Every accepted operation changes the version, whatever order the rules are listed in, and a refused
      one changes nothing at all. */
  lemma EveryOperationChangesVersion(hash: RowHash, desk: Desk, req: Request, x: seq<Rule>, y: seq<Rule>)
    requires NoCollision(hash, x, y) && Sound(desk.table)
    requires Holds(x, desk.table) && Holds(y, Apply(desk, req).0.table)
    ensures Apply(desk, req).1.Refused? ==> Apply(desk, req).0 == desk
    ensures Apply(desk, req).1.Refused? <==> VersionFor(hash, x) == VersionFor(hash, y)
  {
    StepKeepsSound(desk, req);
    RefusedChangesNothing(desk, req);
    RowsChange(desk, req);
    hide ValidRule;
    hide KeyOf;
    var (after, outcome) := Apply(desk, req);
    VersionOfTable(hash, x, desk.table, y, after.table);
  }

  lemma RowsChange(desk: Desk, req: Request)
    requires Sound(desk.table)
    ensures Apply(desk, req).1.Refused? <==> SameRows(desk.table, Apply(desk, req).0.table)
  {
    hide ValidRule;
    hide KeyOf;
    RefusedChangesNothing(desk, req);
    if Apply(desk, req).1.Stored? {
      WrittenRule(desk, req);
      hide Apply;
      var r, t' := Apply(desk, req).1.rule, Apply(desk, req).0.table;
      assert req.id in t'.Keys && RowOf(t'[req.id]).version == r.version;
      assert req.Create? ==> req.id !in desk.table.Keys;
    } else if Apply(desk, req).1.Removed? {
      assert req.id in desk.table.Keys && req.id !in Apply(desk, req).0.table.Keys;
    }
  }

  /** Two processes whose caches list the same table hold the same rules under the same version, so they
      give the same verdict to every question. */
  lemma ReplicasAgree(hash: RowHash, table: Table, x: seq<Rule>, y: seq<Rule>, q: Question)
    requires Lists(x, table) && Lists(y, table)
    ensures x == y && VersionFor(hash, x) == VersionFor(hash, y) && Evaluate(x, q) == Evaluate(y, q)
  {
    hide InListingOrder;
    hide DistinctRules;
    forall r ensures r in x <==> r in y {
      SameMember(x, y, table, r);
      SameMember(y, x, table, r);
    }
    ListingIsUnique(x, y);
  }

  lemma SameMember(x: seq<Rule>, y: seq<Rule>, table: Table, r: Rule)
    requires Holds(x, table) && Holds(y, table)
    ensures r in x ==> r in y
  {
  }

  /** Rules listed from a sound table have unique keys, so for a classified tool even an unordered copy of
      the table gives the same verdict. */
  lemma AnyCopyAgrees(table: Table, x: seq<Rule>, y: seq<Rule>, q: Question)
    requires Sound(table) && Holds(x, table) && Holds(y, table) && q.actionClass.Some?
    ensures Evaluate(x, q) == Evaluate(y, q)
  {
    hide ValidRule;
    hide KeyOf;
    forall a, b | a in x && b in x && KeyOf(a) == KeyOf(b) ensures a == b {
      assert a == table[a.id] && b == table[b.id];
    }
    assert UniqueKeys(x);
    hide Sound;
    forall r: Rule ensures multiset(x)[r] == multiset(y)[r] {
      HeldOnce(x, table, r);
      HeldOnce(y, table, r);
    }
    hide Holds;
    hide Evaluate;
    assert multiset(x) == multiset(y);
    OrderDoesNotMatter(x, y, q);
  }

  lemma HeldOnce(rules: seq<Rule>, table: Table, r: Rule)
    requires Holds(rules, table)
    ensures multiset(rules)[r] == if r.id in table && table[r.id] == r then 1 else 0
  {
    DistinctOnce(rules, r);
  }

  lemma {:induction false} DistinctOnce(rules: seq<Rule>, r: Rule)
    requires DistinctRules(rules)
    ensures multiset(rules)[r] == if r in rules then 1 else 0
  {
    if rules != [] {
      DistinctOnce(rules[1..], r);
      assert rules == [rules[0]] + rules[1..];
    }
  }
}
