/** The version of a rule set: a hash of its rows, sorted, without timestamps. */
module PolicyVersion {
  import opened Ordering
  import opened Policy

  datatype Row = Row(id: string, tool: string, actionClass: string, scope: string, allowed: bool, version: int)

  /** SHA-256 of the rows as JSON. */
  type RowHash = seq<Row> -> string

  function ClassName(c: ActionClass): string {
    match c
    case Read => "read"
    case LowRiskWrite => "low-risk-write"
    case HighRiskWrite => "high-risk-write"
    case Destructive => "destructive"
  }

  function RowOf(r: Rule): Row {
    Row(r.id, r.tool, ClassName(r.actionClass), r.scope, r.allowed, r.version)
  }

  function RowsOf(rules: seq<Rule>): (rows: seq<Row>)
    ensures |rows| == |rules| && forall i | 0 <= i < |rules| :: rows[i] == RowOf(rules[i])
  {
    seq(|rules|, i requires 0 <= i < |rules| => RowOf(rules[i]))
  }

  /** What a row keeps of a rule: all but its reason, authors and times. */
  lemma RowExactly(a: Rule, b: Rule)
    ensures RowOf(a) == RowOf(b)
       <==> && a.id == b.id && a.tool == b.tool && a.actionClass == b.actionClass && a.scope == b.scope
            && a.allowed == b.allowed && a.version == b.version
  {
    assert |ClassName(Read)| == 4 && |ClassName(LowRiskWrite)| == 14;
    assert |ClassName(HighRiskWrite)| == 15 && |ClassName(Destructive)| == 11;
  }

  /** Tuple order: the first component that differs decides; `False` comes before `True`. */
  predicate RowLess(a: Row, b: Row) {
    if a.id != b.id then Less(a.id, b.id)
    else if a.tool != b.tool then Less(a.tool, b.tool)
    else if a.actionClass != b.actionClass then Less(a.actionClass, b.actionClass)
    else if a.scope != b.scope then Less(a.scope, b.scope)
    else if a.allowed != b.allowed then b.allowed
    else a.version < b.version
  }

  predicate RowAtMost(a: Row, b: Row) {
    a == b || RowLess(a, b)
  }

  lemma RowOrderIsTotal(a: Row, b: Row)
    ensures RowAtMost(a, b) || RowAtMost(b, a)
    ensures RowAtMost(a, b) && RowAtMost(b, a) ==> a == b
  {
    LessIsTotal(a.id, b.id);
    LessIsTotal(a.tool, b.tool);
    LessIsTotal(a.actionClass, b.actionClass);
    LessIsTotal(a.scope, b.scope);
    hide Less;
  }

  lemma StringChain(a: string, b: string, c: string)
    ensures Less(a, b) && Less(b, c) ==> Less(a, c) && a != c
  {
    if Less(a, b) && Less(b, c) {
      LessIsTransitive(a, b, c);
      LessIsTotal(a, c);
    }
  }

  lemma RowOrderIsTransitive(a: Row, b: Row, c: Row)
    requires RowAtMost(a, b) && RowAtMost(b, c)
    ensures RowAtMost(a, c)
  {
    StringChain(a.id, b.id, c.id);
    StringChain(a.tool, b.tool, c.tool);
    StringChain(a.actionClass, b.actionClass, c.actionClass);
    StringChain(a.scope, b.scope, c.scope);
    hide Less;
  }

  predicate RowsSorted(rows: seq<Row>) {
    forall i, j | 0 <= i < j < |rows| :: RowAtMost(rows[i], rows[j])
  }

  function InsertRow(row: Row, rows: seq<Row>): seq<Row> {
    if rows == [] || RowAtMost(row, rows[0]) then [row] + rows else [rows[0]] + InsertRow(row, rows[1..])
  }

  function SortRows(rows: seq<Row>): seq<Row> {
    if rows == [] then [] else InsertRow(rows[0], SortRows(rows[1..]))
  }

  lemma {:induction false} InsertRowKeeps(row: Row, rows: seq<Row>)
    ensures multiset(InsertRow(row, rows)) == multiset(rows) + multiset{row}
  {
    hide RowAtMost;
    if rows != [] {
      assert rows == [rows[0]] + rows[1..];
      if !RowAtMost(row, rows[0]) {
        InsertRowKeeps(row, rows[1..]);
      }
    }
  }

  lemma {:induction false} InsertRowSorts(row: Row, rows: seq<Row>)
    requires RowsSorted(rows)
    ensures RowsSorted(InsertRow(row, rows))
  {
    hide RowAtMost;
    if rows != [] {
      RowOrderIsTotal(row, rows[0]);
      if RowAtMost(row, rows[0]) {
        forall i | 0 <= i < |rows| ensures RowAtMost(row, rows[i]) {
          if i > 0 {
            RowOrderIsTransitive(row, rows[0], rows[i]);
          }
        }
      } else {
        var r := InsertRow(row, rows[1..]);
        InsertRowSorts(row, rows[1..]);
        InsertRowKeeps(row, rows[1..]);
        forall i | 0 <= i < |r| ensures RowAtMost(rows[0], r[i]) {
          assert r[i] in multiset(r);
          if r[i] != row {
            assert r[i] in multiset(rows[1..]);
            var j :| 0 <= j < |rows[1..]| && rows[1..][j] == r[i];
          }
        }
      }
    }
  }

  lemma {:induction false} SortRowsSorts(rows: seq<Row>)
    ensures RowsSorted(SortRows(rows)) && multiset(SortRows(rows)) == multiset(rows)
  {
    if rows != [] {
      SortRowsSorts(rows[1..]);
      InsertRowSorts(rows[0], SortRows(rows[1..]));
      InsertRowKeeps(rows[0], SortRows(rows[1..]));
      assert rows == [rows[0]] + rows[1..];
    }
  }

  /** Two sorted lists with the same rows are the same list. */
  lemma {:induction false} SortedIsUnique(x: seq<Row>, y: seq<Row>)
    requires RowsSorted(x) && RowsSorted(y) && multiset(x) == multiset(y)
    ensures x == y
  {
    hide RowAtMost;
    assert |x| == |multiset(x)| == |multiset(y)| == |y|;
    if x != [] {
      SameHeads(x, y);
      assert x == [x[0]] + x[1..] && y == [y[0]] + y[1..];
      assert multiset(x[1..]) == multiset(x) - multiset{x[0]};
      assert multiset(y[1..]) == multiset(y) - multiset{y[0]};
      SortedIsUnique(x[1..], y[1..]);
    }
  }

  lemma SameHeads(x: seq<Row>, y: seq<Row>)
    requires RowsSorted(x) && RowsSorted(y) && multiset(x) == multiset(y) && x != [] && y != []
    ensures x[0] == y[0]
  {
    hide RowAtMost;
    assert x[0] in multiset(y) && y[0] in multiset(x);
    var i :| 0 <= i < |y| && y[i] == x[0];
    var j :| 0 <= j < |x| && x[j] == y[0];
    RowOrderIsTotal(x[0], y[0]);
    RowOrderIsTotal(x[0], x[0]);
  }

  /** The version string of a rule set. */
  function VersionFor(hash: RowHash, rules: seq<Rule>): string {
    "pv1-" + hash(SortRows(RowsOf(rules)))
  }

  /** The sorted rows of the two rule sets do not share a hash unless they are the same. */
  predicate NoCollision(hash: RowHash, x: seq<Rule>, y: seq<Rule>) {
    var sx, sy := SortRows(RowsOf(x)), SortRows(RowsOf(y));
    hash(sx) == hash(sy) ==> sx == sy
  }

  /** The version ignores the order of the rules and nothing else: unless their hashes collide, two rule sets
      share it exactly when they have the same rows. */
  lemma VersionIdentifies(hash: RowHash, x: seq<Rule>, y: seq<Rule>)
    requires NoCollision(hash, x, y)
    ensures VersionFor(hash, x) == VersionFor(hash, y) <==> multiset(RowsOf(x)) == multiset(RowsOf(y))
  {
    var sx, sy := SortRows(RowsOf(x)), SortRows(RowsOf(y));
    SortRowsSorts(RowsOf(x));
    SortRowsSorts(RowsOf(y));
    if multiset(RowsOf(x)) == multiset(RowsOf(y)) {
      SortedIsUnique(sx, sy);
    }
    assert ("pv1-" + hash(sx))[4..] == hash(sx) && ("pv1-" + hash(sy))[4..] == hash(sy);
  }
}
