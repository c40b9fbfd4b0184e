/** What each admin request does, in its own terms: when it is refused and why, the row it writes and the entry it
    leaves. */
module PolicyRequests {
  import opened Options
  import opened Policy
  import opened PolicyVersion
  import opened PolicyAdmin
  import Text

  const CLASSES := {"read", "low-risk-write", "high-risk-write", "destructive"}

  lemma ClassesRead(s: string)
    ensures ParseClass(s).Some? <==> Text.Strip(s) in CLASSES
    ensures ParseClass(s).Some? ==> ClassName(ParseClass(s).value) == Text.Strip(s)
    ensures ParseClass(s) == Some(Destructive) <==> Text.Strip(s) == "destructive"
  {
    hide Text.Strip;
  }

  predicate Short(s: string, limit: nat) {
    0 < |Text.Strip(s)| <= limit
  }

  /** The fields of a rule within its limits, none of them yet stripped; a destructive tool is never allowed. */
  predicate Permitted(tool: string, cls: ActionClass, scope: string, allowed: bool, reason: string) {
    Short(tool, 128) && Short(scope, 255) && |Text.Strip(reason)| <= 255 && !(allowed && cls == Destructive)
  }

  /** Another row has the same tool, class and scope. */
  predicate Taken(table: Table, id: string, tool: string, cls: ActionClass, scope: string) {
    exists other | other in table ::
      && other != id && table[other].actionClass == cls
      && table[other].tool == Text.Strip(tool) && table[other].scope == Text.Strip(scope)
  }

  predicate Wrote(r: Rule, tool: string, scope: string, allowed: bool, reason: string) {
    r.tool == Text.Strip(tool) && r.scope == Text.Strip(scope) && r.allowed == allowed && r.reason == Text.Strip(reason)
  }

  /** A create is invalid, a duplicate, or stores a first version with the fields asked for, stripped, by its
      actor. */
  lemma CreateExactly(desk: Desk, req: Request)
    requires req.Create? && Keyed(desk.table)
    ensures var outcome := Apply(desk, req).1;
            var cls := ParseClass(req.actionClass);
            var valid := Short(req.actor, 128) && cls.Some?
                         && Permitted(req.tool, cls.value, req.scope, req.allowed, req.reason);
            && (outcome == Refused(Invalid) <==> !valid)
            && (outcome == Refused(Duplicate)
                <==> valid && (req.id in desk.table || Taken(desk.table, req.id, req.tool, cls.value, req.scope)))
            && outcome != Refused(NotFound) && !outcome.Removed?
            && (outcome.Stored? ==>
                  var r := outcome.rule;
                  && r.id == req.id && r.actionClass == cls.value
                  && Wrote(r, req.tool, req.scope, req.allowed, req.reason)
                  && r.createdBy == r.updatedBy == Text.Strip(req.actor) && r.createdAt == r.updatedAt == req.now
                  && r.version == 1)
  {
    hide ParseClass;
    hide Text.Strip;
    var made := NewRule(req);
    assert made.Some? ==> made.value.id == req.id;
  }

  /** An update of a row that is there is invalid, a duplicate, or stores the next version: each field named by the
      patch, stripped, and every other as it was; only who updated it and when is new besides. */
  lemma UpdateExactly(desk: Desk, req: Request)
    requires req.Update? && Keyed(desk.table)
    ensures var outcome := Apply(desk, req).1;
            && (outcome == Refused(NotFound) <==> req.id !in desk.table)
            && (req.id in desk.table ==>
                  var e, p := desk.table[req.id], req.patch;
                  var cls := if p.actionClass.Some? then ParseClass(p.actionClass.value) else Some(e.actionClass);
                  var tool := if p.tool.Some? then p.tool.value else e.tool;
                  var scope := if p.scope.Some? then p.scope.value else e.scope;
                  var allowed := if p.allowed.Some? then p.allowed.value else e.allowed;
                  var reason := if p.reason.Some? then p.reason.value else e.reason;
                  var valid := Short(req.actor, 128) && cls.Some? && Permitted(tool, cls.value, scope, allowed, reason)
                               && Short(e.createdBy, 128) && e.version >= 0;
                  && (outcome == Refused(Invalid) <==> !valid)
                  && (outcome == Refused(Duplicate) <==> valid && Taken(desk.table, e.id, tool, cls.value, scope))
                  && !outcome.Removed?
                  && (outcome.Stored? ==>
                        var r := outcome.rule;
                        && Wrote(r, tool, scope, allowed, reason) && r.actionClass == cls.value
                        && r.id == e.id && r.createdBy == Text.Strip(e.createdBy) && r.createdAt == e.createdAt
                        && r.updatedBy == Text.Strip(req.actor) && r.updatedAt == req.now
                        && r.version == e.version + 1))
  {
    hide ParseClass;
    hide Text.Strip;
    if req.id in desk.table {
      var made := Replaced(desk.table[req.id], req);
      assert made.Some? ==> made.value.id == desk.table[req.id].id;
    }
  }

  lemma DeleteExactly(desk: Desk, req: Request)
    requires req.Delete?
    ensures var (after, outcome) := Apply(desk, req);
            && (outcome == Refused(NotFound) <==> req.id !in desk.table)
            && (outcome == Refused(Invalid) <==> req.id in desk.table && !Short(req.actor, 128))
            && (outcome == Removed <==> req.id in desk.table && Short(req.actor, 128))
            && (outcome == Removed ==> after.table == desk.table - {req.id})
  {
    hide Text.Strip;
  }

  /** The snapshot holds the whole row but its times. */
  predicate Pictures(s: Snapshot, r: Rule) {
    && s.id == r.id && s.tool == r.tool && s.actionClass == r.actionClass && s.scope == r.scope
    && s.allowed == r.allowed && s.reason == r.reason
    && s.createdBy == r.createdBy && s.updatedBy == r.updatedBy && s.version == r.version
  }

  /** An accepted request leaves one entry: the row it was about, who asked, stripped, and when, and pictures of
      the row before and after. */
  lemma EntryExactly(desk: Desk, req: Request)
    requires Keyed(desk.table) && !Apply(desk, req).1.Refused?
    ensures var (after, outcome) := Apply(desk, req);
            && |after.changes| == |desk.changes| + 1 && after.changes[..|desk.changes|] == desk.changes
            && var entry := after.changes[|desk.changes|];
               && entry.ruleId == req.id && entry.actor == Text.Strip(req.actor) && entry.at == req.now
               && (entry.before.Some? <==> req.id in desk.table) && (entry.after.Some? <==> req.id in after.table)
               && (entry.before.Some? ==> Pictures(entry.before.value, desk.table[req.id]))
               && (entry.after.Some? ==> Pictures(entry.after.value, after.table[req.id]))
               && entry.action == match req case Create(_, _, _, _, _, _, _, _) => Created
                                            case Update(_, _, _, _) => Updated
                                            case Delete(_, _, _) => Deleted
  {
    hide ParseClass;
    hide Text.Strip;
    hide KeyTaken;
  }
}
