/** Policy rules and their evaluation: default deny, the most specific rule wins, ties fail closed. */
module Policy {
  import opened Collections
  import opened Options
  import opened Text

  datatype ActionClass = Read | LowRiskWrite | HighRiskWrite | Destructive

  const WILDCARD := "*"

  datatype Rule = Rule(id: string, tool: string, actionClass: ActionClass, scope: string, allowed: bool,
                       reason: string, createdBy: string, updatedBy: string,
                       createdAt: int, updatedAt: int, version: int)

  datatype Verdict = Verdict(allowed: bool, reason: string, ruleId: Option<string>, actionClass: Option<ActionClass>)

  /** One question to the policy; the class is missing for a tool nobody classified. */
  datatype Question = Question(tool: string, actionClass: Option<ActionClass>, agent: string, service: string)

  /** What the constructor of a rule lets through. */
  predicate ValidRule(r: Rule) {
    && r.version >= 1
    && Token(r.tool, 128) && Token(r.scope, 255) && Token(r.createdBy, 128) && Token(r.updatedBy, 128)
    && Strip(r.reason) == r.reason && |r.reason| <= 255
    && (r.allowed ==> r.actionClass != Destructive)
  }

  /** A cleaned field: stripped, not empty, not too long. */
  predicate Token(s: string, limit: nat) {
    Strip(s) == s && 0 < |s| <= limit
  }

  datatype Key = Key(tool: string, actionClass: ActionClass, scope: string)

  function KeyOf(r: Rule): Key {
    Key(r.tool, r.actionClass, r.scope)
  }

  // ----- specificity ----------------------------------------------------------------------

  function ToolPoints(r: Rule, q: Question): nat {
    if r.tool == q.tool then 4 else if r.tool == WILDCARD then 1 else 0
  }

  function ScopePoints(r: Rule, q: Question): nat {
    if r.scope == q.agent then 3
    else if q.service != [] && r.scope == q.service then 2
    else if r.scope == WILDCARD then 1
    else 0
  }

  function Specificity(r: Rule, q: Question): Option<nat> {
    if q.actionClass.Some? && r.actionClass != q.actionClass.value then None
    else if ToolPoints(r, q) == 0 || ScopePoints(r, q) == 0 then None
    else Some(ToolPoints(r, q) * 10 + ScopePoints(r, q))
  }

  predicate Matches(r: Rule, q: Question) {
    Specificity(r, q).Some?
  }

  /** The numeric score is the lexicographic order of tool and scope: naming the tool beats every
      wildcard, and only among equals on the tool does the scope count. */
  lemma ScoreIsLexicographic(a: Rule, b: Rule, q: Question)
    requires Matches(a, q) && Matches(b, q)
    ensures Specificity(a, q).value > Specificity(b, q).value
       <==> (a.tool == q.tool && b.tool != q.tool)
            || ((a.tool == q.tool <==> b.tool == q.tool) && ScopePoints(a, q) > ScopePoints(b, q))
    ensures Specificity(a, q) == Specificity(b, q) ==> a.tool == b.tool && a.scope == b.scope
  {
  }

  /** Which rules speak to a question: of its class if it has one, for the tool or every tool, and for the agent, the
      service or everybody. */
  lemma MatchesExactly(r: Rule, q: Question)
    ensures Matches(r, q)
       <==> && (q.actionClass.Some? ==> r.actionClass == q.actionClass.value)
            && (r.tool == q.tool || r.tool == "*")
            && (r.scope == q.agent || (q.service != [] && r.scope == q.service) || r.scope == "*")
  {
  }

  /** Which of two matching rules is the more specific: naming the tool counts first, then naming the agent, then
      naming the service. */
  lemma PrecedenceExactly(a: Rule, b: Rule, q: Question)
    requires Matches(a, q) && Matches(b, q)
    ensures Specificity(a, q).value > Specificity(b, q).value
       <==> || (a.tool == q.tool && b.tool != q.tool)
            || (&& (a.tool == q.tool <==> b.tool == q.tool)
                && b.scope != q.agent
                && (a.scope == q.agent || (q.service != [] && a.scope == q.service && b.scope != q.service)))
  {
  }

  // ----- evaluation -----------------------------------------------------------------------

  function Scored(rules: seq<Rule>, q: Question): seq<(nat, Rule)> {
    if rules == [] then []
    else
      var score := Specificity(rules[0], q);
      (if score.Some? then [(score.value, rules[0])] else []) + Scored(rules[1..], q)
  }

  function Best(scored: seq<(nat, Rule)>): nat
    requires scored != []
  {
    if |scored| == 1 then scored[0].0
    else
      var rest := Best(scored[1..]);
      if scored[0].0 > rest then scored[0].0 else rest
  }

  function Tied(scored: seq<(nat, Rule)>, best: nat): seq<Rule> {
    if scored == [] then []
    else (if scored[0].0 == best then [scored[0].1] else []) + Tied(scored[1..], best)
  }

  function FirstDeny(rules: seq<Rule>): Option<Rule> {
    if rules == [] then None else if !rules[0].allowed then Some(rules[0]) else FirstDeny(rules[1..])
  }

  function FailClosed(tied: seq<Rule>): Rule
    requires tied != []
  {
    if FirstDeny(tied).Some? then FirstDeny(tied).value else tied[0]
  }

  function DenyReason(r: Rule): string {
    if r.actionClass == Destructive then "denied:destructive"
    else if |r.reason| >= 7 && r.reason[..7] == "denied:" then r.reason
    else "denied:policy"
  }

  function VerdictOf(winner: Rule): Verdict {
    if winner.actionClass == Destructive || !winner.allowed
    then Verdict(false, DenyReason(winner), Some(winner.id), Some(winner.actionClass))
    else
      Verdict(true, if winner.reason == [] then "allowed:policy" else winner.reason, Some(winner.id),
              Some(winner.actionClass))
  }

  function Evaluate(rules: seq<Rule>, q: Question): Verdict {
    if q.actionClass == Some(Destructive) then Verdict(false, "denied:destructive", None, q.actionClass)
    else
      var scored := Scored(rules, q);
      if scored == [] then
        Verdict(false, if q.actionClass.None? then "denied:unknown_tool" else "denied:default", None, q.actionClass)
      else
        TiedNotEmpty(scored);
        VerdictOf(FailClosed(Tied(scored, Best(scored))))
  }

  method EvaluatePolicy(rules: seq<Rule>, q: Question) returns (v: Verdict)
    ensures v == Evaluate(rules, q)
  {
    if q.actionClass == Some(Destructive) {
      return Verdict(false, "denied:destructive", None, q.actionClass);
    }
    var scored: seq<(nat, Rule)> := [];
    for i := 0 to |rules|
      invariant scored + Scored(rules[i..], q) == Scored(rules, q)
    {
      assert rules[i..][1..] == rules[i + 1..];
      var score := Specificity(rules[i], q);
      if score.Some? {
        scored := scored + [(score.value, rules[i])];
      }
    }
    assert scored + [] == scored;
    hide Scored;
    hide Specificity;
    if scored == [] {
      return Verdict(false, if q.actionClass.None? then "denied:unknown_tool" else "denied:default", None,
                     q.actionClass);
    }
    TiedNotEmpty(scored);
    v := VerdictOf(FailClosed(Tied(scored, Best(scored))));
  }

  // ----- what evaluation means ------------------------------------------------------------

  /** A rule that matches and that no matching rule is more specific than. */
  ghost predicate TopRanked(rules: seq<Rule>, q: Question, r: Rule) {
    && r in rules && Matches(r, q)
    && forall other | other in rules && Matches(other, q) :: Specificity(other, q).value <= Specificity(r, q).value
  }

  lemma {:induction false} ScoredMembers(rules: seq<Rule>, q: Question, n: nat, r: Rule)
    ensures (n, r) in Scored(rules, q) <==> r in rules && Specificity(r, q) == Some(n)
  {
    hide Specificity;
    if rules != [] {
      ScoredMembers(rules[1..], q, n, r);
      assert rules == [rules[0]] + rules[1..];
    }
  }

  lemma {:induction false} BestIsLargest(scored: seq<(nat, Rule)>)
    requires scored != []
    ensures exists r :: (Best(scored), r) in scored
    ensures forall p | p in scored :: p.0 <= Best(scored)
  {
    assert scored == [scored[0]] + scored[1..];
    assert (scored[0].0, scored[0].1) in scored;
    if |scored| == 1 {
      assert (Best(scored), scored[0].1) in scored;
    } else {
      var rest := Best(scored[1..]);
      BestIsLargest(scored[1..]);
      var r :| (rest, r) in scored[1..];
      assert (Best(scored), if scored[0].0 > rest then scored[0].1 else r) in scored;
    }
  }

  lemma {:induction false} TiedMembers(scored: seq<(nat, Rule)>, best: nat, r: Rule)
    ensures r in Tied(scored, best) <==> (best, r) in scored
  {
    if scored != [] {
      TiedMembers(scored[1..], best, r);
      assert scored == [scored[0]] + scored[1..];
    }
  }

  lemma TiedNotEmpty(scored: seq<(nat, Rule)>)
    requires scored != []
    ensures Tied(scored, Best(scored)) != []
  {
    BestIsLargest(scored);
    var r :| (Best(scored), r) in scored;
    TiedMembers(scored, Best(scored), r);
  }

  /** The tied rules are the top-ranked ones. */
  lemma TiedAreTop(rules: seq<Rule>, q: Question, r: Rule)
    requires Scored(rules, q) != []
    ensures r in Tied(Scored(rules, q), Best(Scored(rules, q))) <==> TopRanked(rules, q, r)
  {
    hide Specificity;
    var scored := Scored(rules, q);
    var best := Best(scored);
    BestIsLargest(scored);
    TiedMembers(scored, best, r);
    ScoredMembers(rules, q, best, r);
    var w :| (best, w) in scored;
    ScoredMembers(rules, q, best, w);
    forall other | other in rules && Matches(other, q) ensures Specificity(other, q).value <= best {
      ScoredMembers(rules, q, Specificity(other, q).value, other);
    }
  }

  lemma ScoredOrNone(rules: seq<Rule>, q: Question)
    ensures Scored(rules, q) == [] <==> forall r | r in rules :: !Matches(r, q)
  {
    hide Specificity;
    forall r | r in rules && Matches(r, q) ensures Scored(rules, q) != [] {
      ScoredMembers(rules, q, Specificity(r, q).value, r);
    }
    if Scored(rules, q) != [] {
      var p := Scored(rules, q)[0];
      ScoredMembers(rules, q, p.0, p.1);
    }
  }

  lemma {:induction false} FirstDenyMeaning(rules: seq<Rule>)
    ensures FirstDeny(rules).None? <==> forall r | r in rules :: r.allowed
    ensures FirstDeny(rules).Some? ==> FirstDeny(rules).value in rules && !FirstDeny(rules).value.allowed
  {
    if rules != [] {
      FirstDenyMeaning(rules[1..]);
      assert rules == [rules[0]] + rules[1..];
    }
  }

  /** The winner is top-ranked, and it allows only when every top-ranked rule does. */
  lemma WinnerIsTop(rules: seq<Rule>, q: Question) returns (winner: Rule)
    requires q.actionClass != Some(Destructive) && exists r :: r in rules && Matches(r, q)
    ensures TopRanked(rules, q, winner) && Evaluate(rules, q) == VerdictOf(winner)
    ensures winner.allowed <==> forall r | TopRanked(rules, q, r) :: r.allowed
  {
    hide Matches;
    hide VerdictOf;
    ScoredOrNone(rules, q);
    var scored := Scored(rules, q);
    TiedNotEmpty(scored);
    var tied := Tied(scored, Best(scored));
    winner := FailClosed(tied);
    FirstDenyMeaning(tied);
    TiedAreTop(rules, q, winner);
    hide TopRanked;
    hide FirstDeny;
    hide Tied;
    hide Best;
    hide Scored;
    forall r ensures r in tied <==> TopRanked(rules, q, r) {
      TiedAreTop(rules, q, r);
    }
    if winner.allowed {
      assert FirstDeny(tied).None?;
    }
  }

  /** What a verdict says, in its own words: destructive tools and unmatched questions have fixed answers; else a
      deciding rule speaks, a top-ranked denial if there is one, under its id and class, with its own reason if it
      gave a fitting one. */
  lemma VerdictExactly(rules: seq<Rule>, q: Question)
    ensures var v := Evaluate(rules, q);
            if q.actionClass == Some(Destructive) then
              v == Verdict(false, "denied:destructive", None, Some(Destructive))
            else if forall r | r in rules :: !Matches(r, q) then
              v == Verdict(false, if q.actionClass.None? then "denied:unknown_tool" else "denied:default", None,
                           q.actionClass)
            else exists r :: Speaks(rules, q, r, v)
  {
    hide Matches;
    hide DenyReason;
    ScoredOrNone(rules, q);
    if q.actionClass != Some(Destructive) && exists r :: r in rules && Matches(r, q) {
      var winner := WinnerIsTop(rules, q);
      hide TopRanked;
      hide Evaluate;
      DenyReasonIs(winner);
      assert Speaks(rules, q, winner, Evaluate(rules, q));
    }
  }

  lemma DenyReasonIs(r: Rule)
    ensures DenyReason(r) == if r.actionClass == Destructive then "denied:destructive"
                             else if |r.reason| >= 7 && r.reason[..7] == "denied:" then r.reason
                             else "denied:policy"
  {
  }

  ghost predicate Speaks(rules: seq<Rule>, q: Question, r: Rule, v: Verdict) {
    && TopRanked(rules, q, r) && (r.allowed ==> forall other | TopRanked(rules, q, other) :: other.allowed)
    && v.ruleId == Some(r.id) && v.actionClass == Some(r.actionClass)
    && (v.allowed <==> r.allowed && r.actionClass != Destructive)
    && v.reason == if v.allowed then (if r.reason == [] then "allowed:policy" else r.reason)
                   else if r.actionClass == Destructive then "denied:destructive"
                   else if |r.reason| >= 7 && r.reason[..7] == "denied:" then r.reason
                   else "denied:policy"
  }

  /** The policy allows exactly when the tool is not destructive, some rule matches, and all of the most
      specific matching rules allow. */
  lemma AllowedMeans(rules: seq<Rule>, q: Question)
    requires forall r | r in rules :: ValidRule(r)
    ensures Evaluate(rules, q).allowed
       <==> q.actionClass != Some(Destructive)
            && (exists r :: r in rules && Matches(r, q))
            && (forall r | TopRanked(rules, q, r) :: r.allowed)
  {
    hide Specificity;
    if q.actionClass != Some(Destructive) {
      ScoredOrNone(rules, q);
      if exists r :: r in rules && Matches(r, q) {
        var winner := WinnerIsTop(rules, q);
      }
    }
  }

  /** The order of the rules never changes whether a call is allowed. */
  lemma OrderDoesNotDecide(rules: seq<Rule>, shuffled: seq<Rule>, q: Question)
    requires multiset(rules) == multiset(shuffled) && forall r | r in rules :: ValidRule(r)
    ensures Evaluate(rules, q).allowed == Evaluate(shuffled, q).allowed
  {
    SameMembers(rules, shuffled);
    AllowedMeans(rules, q);
    AllowedMeans(shuffled, q);
    hide Evaluate;
    hide Matches;
    hide ValidRule;
    forall r ensures TopRanked(rules, q, r) <==> TopRanked(shuffled, q, r) {
    }
  }

  /** No two rules share tool, class and scope. */
  predicate UniqueKeys(rules: seq<Rule>) {
    forall a, b | a in rules && b in rules && KeyOf(a) == KeyOf(b) :: a == b
  }

  /** With unique keys and a classified tool there is one winner, so the whole verdict, with its reason
      and the rule it names, ignores the order of the rules. */
  lemma OrderDoesNotMatter(rules: seq<Rule>, shuffled: seq<Rule>, q: Question)
    requires multiset(rules) == multiset(shuffled) && UniqueKeys(rules) && q.actionClass.Some?
    ensures Evaluate(rules, q) == Evaluate(shuffled, q)
  {
    SameMembers(rules, shuffled);
    ScoredOrNone(rules, q);
    ScoredOrNone(shuffled, q);
    if q.actionClass != Some(Destructive) && exists r :: r in rules && Matches(r, q) {
      var a := WinnerIsTop(rules, q);
      var b := WinnerIsTop(shuffled, q);
      assert TopRanked(rules, q, b);
      hide Evaluate;
      ScoreIsLexicographic(a, b, q);
      assert KeyOf(a) == KeyOf(b);
    }
  }

  // ----- when order matters ---------------------------------------------------------------

  /** The rules that may decide: the top-ranked denies if there are any, else all top-ranked rules. */
  ghost predicate Deciding(rules: seq<Rule>, q: Question, r: Rule) {
    TopRanked(rules, q, r) && (!r.allowed || forall other | TopRanked(rules, q, other) :: other.allowed)
  }

  ghost predicate Shuffle(rules: seq<Rule>, shuffled: seq<Rule>) {
    multiset(rules) == multiset(shuffled)
  }

  lemma ShuffleKeepsDeciding(rules: seq<Rule>, shuffled: seq<Rule>, q: Question)
    requires Shuffle(rules, shuffled)
    ensures forall r :: Deciding(rules, q, r) <==> Deciding(shuffled, q, r)
  {
    SameMembers(rules, shuffled);
    hide Matches;
    forall r ensures TopRanked(rules, q, r) <==> TopRanked(shuffled, q, r) {
    }
    hide TopRanked;
  }

  /** Whatever the order, a deciding rule gives the verdict. */
  lemma DecidedByDeciding(rules: seq<Rule>, shuffled: seq<Rule>, q: Question) returns (winner: Rule)
    requires Shuffle(rules, shuffled)
    requires q.actionClass != Some(Destructive) && exists r :: r in rules && Matches(r, q)
    ensures Deciding(rules, q, winner) && Evaluate(shuffled, q) == VerdictOf(winner)
  {
    SameMembers(rules, shuffled);
    winner := WinnerIsTop(shuffled, q);
    ShuffleKeepsDeciding(rules, shuffled, q);
    hide TopRanked;
    hide Evaluate;
    assert Deciding(shuffled, q, winner);
  }

  /** And each of them does in some order: when it comes first. */
  lemma DecidingCanDecide(rules: seq<Rule>, q: Question, r: Rule) returns (shuffled: seq<Rule>)
    requires q.actionClass != Some(Destructive) && Deciding(rules, q, r)
    ensures Shuffle(rules, shuffled) && Evaluate(shuffled, q) == VerdictOf(r)
  {
    var i :| 0 <= i < |rules| && rules[i] == r;
    var rest := rules[..i] + rules[i + 1..];
    shuffled := [r] + rest;
    assert rules == rules[..i] + [r] + rules[i + 1..];
    ShuffleKeepsDeciding(rules, shuffled, q);
    FirstDecides(rest, q, r);
  }

  lemma FirstDecides(rest: seq<Rule>, q: Question, r: Rule)
    requires q.actionClass != Some(Destructive) && Deciding([r] + rest, q, r)
    ensures Evaluate([r] + rest, q) == VerdictOf(r)
  {
    hide Specificity;
    hide VerdictOf;
    var rules := [r] + rest;
    var scored := Scored(rules, q);
    var s := Specificity(r, q).value;
    assert rules[0] == r && rules[1..] == rest;
    assert scored == [(s, r)] + Scored(rest, q);
    BestIsTop(rules, q, r);
    assert Best(scored) == s;
    var tied := Tied(scored, s);
    assert scored[0] == (s, r) && scored[1..] == Scored(rest, q);
    assert tied == [r] + Tied(Scored(rest, q), s);
    assert tied[0] == r;
    if r.allowed {
      forall x | x in tied ensures x.allowed {
        TiedAreTop(rules, q, x);
      }
      FirstDenyMeaning(tied);
    }
  }

  lemma BestIsTop(rules: seq<Rule>, q: Question, r: Rule)
    requires TopRanked(rules, q, r)
    ensures Scored(rules, q) != [] && Best(Scored(rules, q)) == Specificity(r, q).value
  {
    hide Specificity;
    var scored := Scored(rules, q);
    ScoredMembers(rules, q, Specificity(r, q).value, r);
    BestIsLargest(scored);
    var w :| (Best(scored), w) in scored;
    ScoredMembers(rules, q, Best(scored), w);
  }

  /** When order matters, exactly: every order of the rules gives the same verdict if and only if the tool is
      destructive or all deciding rules give the same verdict. */
  lemma OrderMattersExactly(rules: seq<Rule>, q: Question)
    ensures (forall shuffled | Shuffle(rules, shuffled) :: Evaluate(shuffled, q) == Evaluate(rules, q))
       <==> q.actionClass == Some(Destructive)
            || forall a, b | Deciding(rules, q, a) && Deciding(rules, q, b) :: VerdictOf(a) == VerdictOf(b)
  {
    if q.actionClass != Some(Destructive) {
      if exists r :: r in rules && Matches(r, q) {
        MatchedOrder(rules, q);
      } else {
        forall shuffled | Shuffle(rules, shuffled) ensures Evaluate(shuffled, q) == Evaluate(rules, q) {
          SameMembers(rules, shuffled);
          ScoredOrNone(rules, q);
          ScoredOrNone(shuffled, q);
        }
      }
    }
  }

  lemma MatchedOrder(rules: seq<Rule>, q: Question)
    requires q.actionClass != Some(Destructive) && exists r :: r in rules && Matches(r, q)
    ensures (forall shuffled | Shuffle(rules, shuffled) :: Evaluate(shuffled, q) == Evaluate(rules, q))
       <==> forall a, b | Deciding(rules, q, a) && Deciding(rules, q, b) :: VerdictOf(a) == VerdictOf(b)
  {
    hide Evaluate;
    hide Deciding;
    hide VerdictOf;
    hide Matches;
    if forall a, b | Deciding(rules, q, a) && Deciding(rules, q, b) :: VerdictOf(a) == VerdictOf(b) {
      var w := DecidedByDeciding(rules, rules, q);
      forall shuffled | Shuffle(rules, shuffled) ensures Evaluate(shuffled, q) == Evaluate(rules, q) {
        var v := DecidedByDeciding(rules, shuffled, q);
      }
    }
    if forall shuffled | Shuffle(rules, shuffled) :: Evaluate(shuffled, q) == Evaluate(rules, q) {
      forall a, b | Deciding(rules, q, a) && Deciding(rules, q, b) ensures VerdictOf(a) == VerdictOf(b) {
        var x := DecidingCanDecide(rules, q, a);
        var y := DecidingCanDecide(rules, q, b);
      }
    }
  }

  /** Unique keys leave this open for a tool nobody classified: two equally specific rules of different
      classes that both deny, or both allow, are told apart by their order alone. */
  lemma UnclassifiedOrderMatters(a: Rule, b: Rule, q: Question)
    requires q.actionClass.None? && Matches(a, q) && a.tool == b.tool && a.scope == b.scope
    requires a.actionClass != b.actionClass && a.allowed == b.allowed
    ensures UniqueKeys([a, b])
    ensures Evaluate([a, b], q) == VerdictOf(a) && Evaluate([b, a], q) == VerdictOf(b)
    ensures VerdictOf(a) != VerdictOf(b)
  {
    var s := Specificity(a, q).value;
    assert Specificity(b, q) == Some(s);
    PairVerdict(a, b, q);
    PairVerdict(b, a, q);
  }

  lemma PairVerdict(a: Rule, b: Rule, q: Question)
    requires q.actionClass.None? && Matches(a, q) && Specificity(b, q) == Specificity(a, q) && a.allowed == b.allowed
    ensures Evaluate([a, b], q) == VerdictOf(a)
  {
    hide Specificity;
    hide VerdictOf;
    var s := Specificity(a, q).value;
    assert [a, b][1..] == [b] && [b][1..] == [];
    assert Scored([b], q) == [(s, b)];
    assert Scored([a, b], q) == [(s, a), (s, b)];
    assert [(s, a), (s, b)][1..] == [(s, b)] && [(s, b)][1..] == [];
    assert Best([(s, b)]) == s;
    assert Best([(s, a), (s, b)]) == s;
    assert Tied([(s, b)], s) == [b];
    assert Tied([(s, a), (s, b)], s) == [a, b];
    assert FirstDeny([b]) == if b.allowed then None else Some(b);
  }
}
