/** Which policy allowed this: what the version in an audit row says about the rules behind it. */
module GatewayPolicy {
  import opened Collections
  import opened Policy
  import opened PolicyVersion
  import opened Gateway
  import opened GatewayRuns
  import A = Audit
  import C = AuditChain
  import Text

  /** A version hash is 12 characters, none of them white space. */
  ghost predicate HexVersion(hash: RowHash) {
    forall rows :: |hash(rows)| == 12 && forall i | 0 <= i < 12 :: !Text.IsSpace(hash(rows)[i])
  }

  /** There is such a hash. */
  lemma HexVersionExists() returns (hash: RowHash)
    ensures HexVersion(hash)
  {
    hash := (rows: seq<Row>) => Text.Zeros(12);
  }

  /** The gateway reads version and rules from the same place. */
  predicate Versioned(hash: RowHash, e: Event) {
    e.env.policyVersion == VersionFor(hash, e.env.rules)
  }

  lemma VersionIsClean(hash: RowHash, rules: seq<Rule>)
    requires HexVersion(hash)
    ensures Text.Strip(VersionFor(hash, rules)) == VersionFor(hash, rules)
  {
    var h := hash(SortRows(RowsOf(rules)));
    var v := VersionFor(hash, rules);
    assert v == "pv1-" + h && v[0] == 'p' && v[|v| - 1] == h[11];
    Text.NothingToStrip(v);
  }

  // ----- rules with the same rows ---------------------------------------------------------

  lemma ClassNamesDiffer(x: ActionClass, y: ActionClass)
    ensures ClassName(x) == ClassName(y) ==> x == y
  {
    assert |ClassName(Read)| == 4 && |ClassName(LowRiskWrite)| == 14;
    assert |ClassName(HighRiskWrite)| == 15 && |ClassName(Destructive)| == 11;
  }

  /** Rules with one row are as specific and allow as much. */
  lemma SameRow(a: Rule, b: Rule, q: Question)
    requires RowOf(a) == RowOf(b)
    ensures Specificity(a, q) == Specificity(b, q) && a.allowed == b.allowed
  {
    ClassNamesDiffer(a.actionClass, b.actionClass);
    hide ClassName;
  }

  lemma Twin(x: seq<Rule>, y: seq<Rule>, a: Rule) returns (b: Rule)
    requires multiset(RowsOf(x)) == multiset(RowsOf(y)) && a in x
    ensures b in y && RowOf(b) == RowOf(a)
  {
    SameMembers(RowsOf(x), RowsOf(y));
    var i :| 0 <= i < |x| && x[i] == a;
    assert RowsOf(x)[i] in RowsOf(x);
    var j :| 0 <= j < |y| && RowsOf(y)[j] == RowOf(a);
    b := y[j];
  }

  lemma TopHasTwin(x: seq<Rule>, y: seq<Rule>, q: Question, a: Rule) returns (b: Rule)
    requires multiset(RowsOf(x)) == multiset(RowsOf(y)) && TopRanked(x, q, a)
    ensures TopRanked(y, q, b) && b.allowed == a.allowed
  {
    hide RowOf;
    hide Specificity;
    b := Twin(x, y, a);
    SameRow(a, b, q);
    forall other | other in y && Matches(other, q)
      ensures Specificity(other, q).value <= Specificity(b, q).value
    {
      var twin := Twin(y, x, other);
      SameRow(twin, other, q);
    }
  }

  /** Rule sets with the same rows, whatever their order, reasons and times, allow the same. */
  lemma SameRowsSameAnswer(x: seq<Rule>, y: seq<Rule>, q: Question)
    requires multiset(RowsOf(x)) == multiset(RowsOf(y))
    requires (forall r | r in x :: ValidRule(r)) && forall r | r in y :: ValidRule(r)
    ensures Evaluate(x, q).allowed == Evaluate(y, q).allowed
  {
    hide ValidRule;
    AllowedMeans(x, q);
    AllowedMeans(y, q);
    hide Evaluate;
    MatchedAlike(x, y, q);
    MatchedAlike(y, x, q);
    AllowedAlike(x, y, q);
    AllowedAlike(y, x, q);
    hide TopRanked;
    hide Matches;
  }

  lemma MatchedAlike(x: seq<Rule>, y: seq<Rule>, q: Question)
    requires multiset(RowsOf(x)) == multiset(RowsOf(y))
    ensures (exists r :: r in x && Matches(r, q)) ==> exists r :: r in y && Matches(r, q)
  {
    hide RowOf;
    hide Specificity;
    if r :| r in x && Matches(r, q) {
      var twin := Twin(x, y, r);
      SameRow(r, twin, q);
    }
  }

  lemma AllowedAlike(x: seq<Rule>, y: seq<Rule>, q: Question)
    requires multiset(RowsOf(x)) == multiset(RowsOf(y))
    ensures (forall r | TopRanked(y, q, r) :: r.allowed) ==> forall r | TopRanked(x, q, r) :: r.allowed
  {
    hide TopRanked;
    if forall r | TopRanked(y, q, r) :: r.allowed {
      forall r | TopRanked(x, q, r) ensures r.allowed {
        var twin := TopHasTwin(x, y, q, r);
      }
    }
  }

  // ----- what the version in a row says ---------------------------------------------------

  /** Two rows carry one version exactly when their calls were decided under rules with the same rows, unless the
      two hashes collide; and then the policy allows the same in both, whatever is asked. */
  ghost predicate VersionsTell(hash: RowHash, events: seq<Event>, rows: seq<A.Entry>) {
    && |rows| == |events|
    && forall i, j | 0 <= i < |events| && 0 <= j < |events| ::
         VersionTells(hash, events[i], events[j], rows[i], rows[j])
  }

  ghost predicate VersionTells(hash: RowHash, e: Event, f: Event, row: A.Entry, other: A.Entry) {
    var x, y := e.env.rules, f.env.rules;
    NoCollision(hash, x, y) ==>
      && (row.body.policyVersion == other.body.policyVersion <==> multiset(RowsOf(x)) == multiset(RowsOf(y)))
      && (row.body.policyVersion == other.body.policyVersion && (forall r | r in x + y :: ValidRule(r)) ==>
            forall q :: Evaluate(x, q).allowed == Evaluate(y, q).allowed)
  }

  lemma TwoVersions(hash: RowHash, e: Event, f: Event, row: A.Entry, other: A.Entry)
    requires row.body.policyVersion == VersionFor(hash, e.env.rules)
    requires other.body.policyVersion == VersionFor(hash, f.env.rules)
    ensures VersionTells(hash, e, f, row, other)
  {
    hide Evaluate;
    hide ValidRule;
    hide VersionFor;
    hide NoCollision;
    var x, y := e.env.rules, f.env.rules;
    if NoCollision(hash, x, y) {
      VersionIdentifies(hash, x, y);
      if multiset(RowsOf(x)) == multiset(RowsOf(y)) && forall r | r in x + y :: ValidRule(r) {
        forall q ensures Evaluate(x, q).allowed == Evaluate(y, q).allowed {
          SameRowsSameAnswer(x, y, q);
        }
      }
    }
  }

  lemma RowVersion(config: Config, hash: A.RowHash, versionHash: RowHash, shared: Shared, events: seq<Event>,
                   rows: seq<A.Entry>, i: nat)
    requires AllMatch(config, events, rows, Steps(config, hash, shared, events)) && HexVersion(versionHash)
    requires i < |events| && Versioned(versionHash, events[i])
    ensures rows[i].body.policyVersion == VersionFor(versionHash, events[i].env.rules)
  {
    hide Text.Strip;
    hide VersionFor;
    VersionIsClean(versionHash, events[i].env.rules);
    assert RowMatches(config, events[i], rows[i], Steps(config, hash, shared, events)[i]);
  }

  /** Over every run whose rows are recorded, the versions in the rows tell the rules apart. */
  lemma VersionsTellRules(config: Config, hash: A.RowHash, versionHash: RowHash, shared: Shared, events: seq<Event>)
    requires C.HexDigest(hash) && C.IsChain(hash, shared.rows) && HexVersion(versionHash)
    requires AllRecorded(Steps(config, hash, shared, events))
    requires forall k | 0 <= k < |events| :: Versioned(versionHash, events[k])
    ensures var rows := Final(config, hash, shared, events).rows;
            |shared.rows| <= |rows| && VersionsTell(versionHash, events, rows[|shared.rows|..])
  {
    hide C.HexDigest;
    hide C.IsChain;
    hide Steps;
    hide Final;
    hide HexVersion;
    hide VersionTells;
    hide Versioned;
    RunIsAudited(config, hash, shared, events);
    var rows := Final(config, hash, shared, events).rows[|shared.rows|..];
    forall i, j | 0 <= i < |events| && 0 <= j < |events|
      ensures VersionTells(versionHash, events[i], events[j], rows[i], rows[j])
    {
      RowVersion(config, hash, versionHash, shared, events, rows, i);
      RowVersion(config, hash, versionHash, shared, events, rows, j);
      TwoVersions(versionHash, events[i], events[j], rows[i], rows[j]);
    }
  }
}
