/** The admin side of the policy: a table of rules, a log of changes and the cached copy the gateway
    evaluates. Each operation is one transaction. */
module PolicyAdmin {
  import opened Options
  import opened Ordering
  import opened Policy
  import opened PolicyVersion
  import Text

  /** A rule without its timestamps, as the change log keeps it. */
  datatype Snapshot = Snapshot(id: string, tool: string, actionClass: ActionClass, scope: string, allowed: bool,
                               reason: string, createdBy: string, updatedBy: string, version: int)

  datatype Action = Created | Updated | Deleted

  datatype Change = Change(ruleId: string, actor: string, action: Action,
                           before: Option<Snapshot>, after: Option<Snapshot>, at: int)

  type Table = map<string, Rule>

  datatype Desk = Desk(table: Table, changes: seq<Change>)

  datatype Request =
    | Create(actor: string, tool: string, actionClass: string, scope: string, allowed: bool, reason: string,
             id: string, now: int)
    | Update(id: string, actor: string, patch: Patch, now: int)
    | Delete(id: string, actor: string, now: int)

  /** The fields an update names. */
  datatype Patch = Patch(tool: Option<string>, actionClass: Option<string>, scope: Option<string>,
                         allowed: Option<bool>, reason: Option<string>)

  datatype Error = Invalid | NotFound | Duplicate

  datatype Outcome = Stored(rule: Rule) | Removed | Refused(error: Error)

  function SnapshotOf(r: Rule): Snapshot {
    Snapshot(r.id, r.tool, r.actionClass, r.scope, r.allowed, r.reason, r.createdBy, r.updatedBy, r.version)
  }

  function ParseClass(s: string): Option<ActionClass> {
    var name := Text.Strip(s);
    if name == "read" then Some(Read)
    else if name == "low-risk-write" then Some(LowRiskWrite)
    else if name == "high-risk-write" then Some(HighRiskWrite)
    else if name == "destructive" then Some(Destructive)
    else None
  }

  /** The constructor: cleans the fields and refuses what breaks a rule's invariants. */
  function MakeRule(r: Rule): Option<Rule> {
    var made := r.(tool := Text.Strip(r.tool), scope := Text.Strip(r.scope), reason := Text.Strip(r.reason),
                   createdBy := Text.Strip(r.createdBy), updatedBy := Text.Strip(r.updatedBy));
    if Fits(made.tool, 128) && Fits(made.scope, 255) && |made.reason| <= 255
       && Fits(made.createdBy, 128) && Fits(made.updatedBy, 128)
       && made.version >= 1 && !(made.allowed && made.actionClass == Destructive)
    then Some(made) else None
  }

  predicate Fits(s: string, limit: nat) {
    0 < |s| <= limit
  }

  function Or<T>(given: Option<T>, current: T): T {
    if given.Some? then given.value else current
  }

  /** The row a create asks for. */
  function NewRule(req: Request): Option<Rule>
    requires req.Create?
  {
    var cls := ParseClass(req.actionClass);
    if !Fits(Text.Strip(req.actor), 128) || cls.None? then None
    else MakeRule(Rule(req.id, req.tool, cls.value, req.scope, req.allowed, req.reason, req.actor, req.actor,
                       req.now, req.now, 1))
  }

  /** The row an update turns a rule into. */
  function Replaced(existing: Rule, req: Request): Option<Rule>
    requires req.Update?
  {
    var p := req.patch;
    var cls := if p.actionClass.Some? then ParseClass(p.actionClass.value) else Some(existing.actionClass);
    if !Fits(Text.Strip(req.actor), 128) || cls.None? then None
    else MakeRule(existing.(tool := Or(p.tool, existing.tool), actionClass := cls.value,
                            scope := Or(p.scope, existing.scope), allowed := Or(p.allowed, existing.allowed),
                            reason := Or(p.reason, existing.reason), updatedBy := req.actor,
                            updatedAt := req.now, version := existing.version + 1))
  }

  /** Another row has the same tool, class and scope. */
  predicate KeyTaken(table: Table, r: Rule) {
    exists id | id in table :: id != r.id && KeyOf(table[id]) == KeyOf(r)
  }

  function Write(desk: Desk, r: Rule, actor: string, action: Action, before: Option<Snapshot>, at: int): Desk {
    Desk(desk.table[r.id := r],
         desk.changes + [Change(r.id, Text.Strip(actor), action, before, Some(SnapshotOf(r)), at)])
  }

  /** One operation as a transaction. */
  function Apply(desk: Desk, req: Request): (Desk, Outcome) {
    match req
    case Create(actor, _, _, _, _, _, id, now) =>
      var made := NewRule(req);
      if made.None? then (desk, Refused(Invalid))
      else if id in desk.table || KeyTaken(desk.table, made.value) then (desk, Refused(Duplicate))
      else (Write(desk, made.value, actor, Created, None, now), Stored(made.value))
    case Update(id, actor, _, now) =>
      if id !in desk.table then (desk, Refused(NotFound))
      else
        var made := Replaced(desk.table[id], req);
        if made.None? then (desk, Refused(Invalid))
        else if KeyTaken(desk.table, made.value) then (desk, Refused(Duplicate))
        else (Write(desk, made.value, actor, Updated, Some(SnapshotOf(desk.table[id])), now), Stored(made.value))
    case Delete(id, actor, now) =>
      if id !in desk.table then (desk, Refused(NotFound))
      else if !Fits(Text.Strip(actor), 128) then (desk, Refused(Invalid))
      else (Desk(desk.table - {id},
                 desk.changes + [Change(id, Text.Strip(actor), Deleted, Some(SnapshotOf(desk.table[id])), None, now)]),
            Removed)
  }

  // ----- the listing ----------------------------------------------------------------------

  predicate DistinctRules(rules: seq<Rule>) {
    forall i, j | 0 <= i < j < |rules| :: rules[i].id != rules[j].id
  }

  /** Exactly the rules of the table, each once. */
  predicate Holds(rules: seq<Rule>, table: Table) {
    && DistinctRules(rules)
    && (forall r | r in rules :: r.id in table && table[r.id] == r)
    && (forall id | id in table :: table[id] in rules)
  }

  /** By tool, then scope, then id. */
  predicate ListedBefore(a: Rule, b: Rule) {
    if a.tool != b.tool then Less(a.tool, b.tool)
    else if a.scope != b.scope then Less(a.scope, b.scope)
    else Less(a.id, b.id)
  }

  predicate InListingOrder(rules: seq<Rule>) {
    forall i, j | 0 <= i < j < |rules| :: ListedBefore(rules[i], rules[j])
  }

  /** The answer of `list_rules`. */
  predicate Lists(rules: seq<Rule>, table: Table) {
    Holds(rules, table) && InListingOrder(rules)
  }

  function Place(r: Rule, rules: seq<Rule>): (placed: seq<Rule>)
    ensures multiset(placed) == multiset(rules) + multiset{r}
  {
    if rules == [] || ListedBefore(r, rules[0]) then [r] + rules
    else
      assert rules == [rules[0]] + rules[1..];
      [rules[0]] + Place(r, rules[1..])
  }

  predicate Keyed(table: Table) {
    forall id | id in table :: table[id].id == id
  }

  class PolicyDesk {
    const hash: RowHash
    var table: Table
    var changes: seq<Change>
    var cachedRules: Option<seq<Rule>>
    var cachedVersion: Option<string>

    constructor (hash: RowHash, table: Table)
      ensures this.hash == hash && this.table == table && changes == []
      ensures cachedRules == None && cachedVersion == None
    {
      this.hash, this.table, changes := hash, table, [];
      cachedRules, cachedVersion := None, None;
    }

    function State(): Desk
      reads this
    {
      Desk(table, changes)
    }

    /** The cache holds exactly the table, under its version. */
    ghost predicate Published()
      reads this
    {
      && cachedRules.Some? && Lists(cachedRules.value, table)
      && cachedVersion == Some(VersionFor(hash, cachedRules.value))
    }

    method ListRules() returns (rules: seq<Rule>)
      requires Keyed(table)
      ensures Lists(rules, table)
    {
      assert InListingOrder([]);
      hide InListingOrder;
      rules := [];
      var left := table.Keys;
      while left != {}
        invariant left <= table.Keys
        invariant Lists(rules, map id | id in table && id !in left :: table[id])
        decreases |left|
      {
        var id :| id in left;
        ghost var done := map k | k in table && k !in left :: table[k];
        PlaceHolds(rules, done, table[id]);
        rules := Place(table[id], rules);
        left := left - {id};
        assert (map k | k in table && k !in left :: table[k]) == done[id := table[id]];
      }
      assert (map id | id in table && id !in left :: table[id]) == table;
    }

    method Publish()
      requires Keyed(table)
      modifies this`cachedRules, this`cachedVersion
      ensures Published()
    {
      var rules := ListRules();
      cachedVersion := Some(VersionFor(hash, rules));
      cachedRules := Some(rules);
    }

    method CreateRule(req: Request) returns (outcome: Outcome)
      requires req.Create? && Keyed(table)
      modifies this
      ensures (State(), outcome) == Apply(old(State()), req)
      ensures outcome.Refused? ==> cachedRules == old(cachedRules) && cachedVersion == old(cachedVersion)
      ensures !outcome.Refused? || old(Published()) ==> Published()
    {
      var made := NewRule(req);
      if made.None? {
        return Refused(Invalid);
      }
      if req.id in table || KeyTaken(table, made.value) {
        return Refused(Duplicate);
      }
      var r := made.value;
      table := table[r.id := r];
      changes := changes + [Change(r.id, Text.Strip(req.actor), Created, None, Some(SnapshotOf(r)), req.now)];
      Publish();
      outcome := Stored(r);
    }

    method UpdateRule(req: Request) returns (outcome: Outcome)
      requires req.Update? && Keyed(table)
      modifies this
      ensures (State(), outcome) == Apply(old(State()), req)
      ensures outcome.Refused? ==> cachedRules == old(cachedRules) && cachedVersion == old(cachedVersion)
      ensures !outcome.Refused? || old(Published()) ==> Published()
    {
      if req.id !in table {
        return Refused(NotFound);
      }
      var existing := table[req.id];
      var made := Replaced(existing, req);
      if made.None? {
        return Refused(Invalid);
      }
      if KeyTaken(table, made.value) {
        return Refused(Duplicate);
      }
      var r := made.value;
      table := table[r.id := r];
      var before, now := Some(SnapshotOf(existing)), Some(SnapshotOf(r));
      changes := changes + [Change(r.id, Text.Strip(req.actor), Updated, before, now, req.now)];
      Publish();
      outcome := Stored(r);
    }

    method DeleteRule(req: Request) returns (outcome: Outcome)
      requires req.Delete? && Keyed(table)
      modifies this
      ensures (State(), outcome) == Apply(old(State()), req)
      ensures outcome.Refused? ==> cachedRules == old(cachedRules) && cachedVersion == old(cachedVersion)
      ensures !outcome.Refused? || old(Published()) ==> Published()
    {
      if req.id !in table {
        return Refused(NotFound);
      }
      if !Fits(Text.Strip(req.actor), 128) {
        return Refused(Invalid);
      }
      var existing := table[req.id];
      table := table - {req.id};
      changes := changes + [Change(req.id, Text.Strip(req.actor), Deleted, Some(SnapshotOf(existing)), None, req.now)];
      Publish();
      outcome := Removed;
    }
  }

  lemma ListingOrderIsStrict(a: Rule, b: Rule, c: Rule)
    ensures a.id != b.id ==> ListedBefore(a, b) || ListedBefore(b, a)
    ensures !(ListedBefore(a, b) && ListedBefore(b, a))
    ensures ListedBefore(a, b) && ListedBefore(b, c) ==> ListedBefore(a, c)
  {
    LessIsTotal(a.tool, b.tool);
    LessIsTotal(a.scope, b.scope);
    LessIsTotal(a.id, b.id);
    StringChain(a.tool, b.tool, c.tool);
    StringChain(a.scope, b.scope, c.scope);
    StringChain(a.id, b.id, c.id);
    hide Less;
  }

  lemma {:induction false} PlaceOrders(r: Rule, rules: seq<Rule>)
    requires InListingOrder(rules) && forall x | x in rules :: x.id != r.id
    ensures InListingOrder(Place(r, rules))
  {
    hide ListedBefore;
    if rules != [] {
      assert rules[0] in rules;
      ListingOrderIsStrict(r, rules[0], r);
      if ListedBefore(r, rules[0]) {
        forall i | 0 <= i < |rules| ensures ListedBefore(r, rules[i]) {
          ListingOrderIsStrict(r, rules[0], rules[i]);
        }
      } else {
        var tail := rules[1..];
        assert forall x | x in tail :: x in rules;
        PlaceOrders(r, tail);
        var rest := Place(r, tail);
        forall j | 0 <= j < |rest| ensures ListedBefore(rules[0], rest[j]) {
          PlaceMembers(r, tail, rest[j]);
          if rest[j] != r {
            var k :| 0 <= k < |tail| && tail[k] == rest[j];
            assert rules[k + 1] == rest[j];
          }
        }
        hide Place;
      }
    }
  }

  lemma PlaceHolds(rules: seq<Rule>, done: Table, r: Rule)
    requires Lists(rules, done) && r.id !in done
    ensures Lists(Place(r, rules), done[r.id := r])
  {
    forall x | x in rules ensures x.id != r.id {
    }
    PlaceOrders(r, rules);
    hide InListingOrder;
    KeepsHolding(rules, done, r);
  }

  lemma KeepsHolding(rules: seq<Rule>, done: Table, r: Rule)
    requires Holds(rules, done) && r.id !in done
    ensures Holds(Place(r, rules), done[r.id := r])
  {
    forall x | x in rules ensures x.id != r.id {
    }
    PlaceDistinct(r, rules);
    hide Place;
    hide DistinctRules;
    var placed, more := Place(r, rules), done[r.id := r];
    forall x ensures x in placed <==> x == r || x in rules {
      PlaceMembers(r, rules, x);
    }
    forall x | x in placed ensures x.id in more && more[x.id] == x {
      if x != r {
        assert x in rules && x.id in done && done[x.id] == x;
      }
    }
  }

  lemma PlaceMembers(r: Rule, rules: seq<Rule>, x: Rule)
    ensures x in Place(r, rules) <==> x == r || x in rules
  {
    assert x in Place(r, rules) <==> x in multiset(Place(r, rules));
    assert x in rules <==> x in multiset(rules);
  }

  lemma {:induction false} PlaceDistinct(r: Rule, rules: seq<Rule>)
    requires DistinctRules(rules) && forall x | x in rules :: x.id != r.id
    ensures DistinctRules(Place(r, rules))
  {
    hide ListedBefore;
    if rules != [] {
      assert rules[0] in rules;
      if ListedBefore(r, rules[0]) {
        assert forall i | 0 <= i < |rules| :: rules[i] in rules;
      } else {
        var tail := rules[1..];
        assert forall x | x in tail :: x in rules;
        PlaceDistinct(r, tail);
        var rest := Place(r, tail);
        forall j | 0 <= j < |rest| ensures rest[j].id != rules[0].id {
          PlaceMembers(r, tail, rest[j]);
          if rest[j] != r {
            var k :| 0 <= k < |tail| && tail[k] == rest[j];
            assert rules[k + 1] == rest[j];
          }
        }
        hide Place;
      }
    }
  }

  /** A table has one listing. */
  lemma {:induction false} ListingIsUnique(x: seq<Rule>, y: seq<Rule>)
    requires InListingOrder(x) && InListingOrder(y) && forall r :: r in x <==> r in y
    ensures x == y
  {
    hide ListedBefore;
    assert y != [] ==> y[0] in x;
    if x != [] {
      assert x[0] in y;
      var i :| 0 <= i < |y| && y[i] == x[0];
      var j :| 0 <= j < |x| && x[j] == y[0];
      ListingOrderIsStrict(x[0], y[0], x[0]);
      ListingOrderIsStrict(x[0], x[0], x[0]);
      assert x[0] == y[0];
      assert x == [x[0]] + x[1..] && y == [y[0]] + y[1..];
      assert x[0] !in x[1..] && x[0] !in y[1..];
      forall r ensures r in x[1..] <==> r in y[1..] {
        assert r in x <==> r == x[0] || r in x[1..];
        assert r in y <==> r == y[0] || r in y[1..];
      }
      ListingIsUnique(x[1..], y[1..]);
    }
  }
}
