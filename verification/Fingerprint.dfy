/** The key under which repeated signals collapse into one open incident, and the scenario read back
    from it. */
module Fingerprint {
  import opened Options
  import Text

  const UNSPECIFIED := "unspecified"

  function Normal(s: string): string {
    Text.Lower(Text.Strip(s))
  }

  /** Stripped, lowered, `unspecified` when blank. */
  function ScenarioKey(scenario: Option<string>): string {
    var key := if scenario.None? then "" else Normal(scenario.value);
    if key == [] then UNSPECIFIED else key
  }

  /** Nothing for a blank service. `hour` is the UTC calendar hour of the signal. */
  function Compute(service: string, scenario: Option<string>, hour: string): Option<string> {
    var s := Normal(service);
    if s == [] then None else Some(Join(s, ScenarioKey(scenario), hour))
  }

  function Join(service: string, scenario: string, hour: string): string {
    "v1" + ("|" + (service + ("|" + (scenario + ("|" + hour)))))
  }

  /** The fingerprint as documented: version, service, scenario and hour between bars; none without a service. */
  lemma ComputeExactly(service: string, scenario: Option<string>, hour: string)
    ensures var s := Text.Lower(Text.Strip(service));
            var k := if scenario.None? then "" else Text.Lower(Text.Strip(scenario.value));
            Compute(service, scenario, hour)
            == if s == "" then None else Some("v1|" + s + "|" + (if k == "" then "unspecified" else k) + "|" + hour)
  {
    hide Text.Strip;
    hide Text.Lower;
    var s, k := Normal(service), ScenarioKey(scenario);
    assert Join(s, k, hour) == "v1|" + s + "|" + k + "|" + hour;
  }

  function BeforeBar(s: string): (r: string)
    ensures |r| <= |s| && '|' !in r && s[..|r|] == r && (|r| < |s| ==> s[|r|] == '|')
  {
    if s == [] || s[0] == '|' then [] else [s[0]] + BeforeBar(s[1..])
  }

  /** `split("|")` */
  function SplitBar(s: string): (parts: seq<string>)
    ensures parts != []
    decreases |s|
  {
    var first := BeforeBar(s);
    if |first| == |s| then [first] else [first] + SplitBar(s[|first| + 1..])
  }

  function ScenarioFrom(fingerprint: Option<string>): string {
    if fingerprint.None? || Text.Strip(fingerprint.value) == [] then UNSPECIFIED
    else
      var parts := SplitBar(fingerprint.value);
      if |parts| >= 3 && Text.Strip(parts[2]) != [] then Text.Lower(Text.Strip(parts[2])) else UNSPECIFIED
  }

  predicate BarFree(s: string) {
    '|' !in s
  }

  // ----- splitting ------------------------------------------------------------------------

  lemma {:induction false} FirstPart(x: string, rest: string)
    requires BarFree(x)
    ensures BeforeBar(x + "|" + rest) == x && BeforeBar(x) == x
  {
    if x != [] {
      assert (x + "|" + rest)[1..] == x[1..] + "|" + rest;
      FirstPart(x[1..], rest);
    }
  }

  lemma SplitFirst(x: string, rest: string)
    requires BarFree(x)
    ensures SplitBar(x + ("|" + rest)) == [x] + SplitBar(rest)
  {
    FirstPart(x, rest);
    var s := x + ("|" + rest);
    assert s == x + "|" + rest;
    assert s[|x| + 1..] == rest;
  }

  lemma Regroup(first: string, more: string, tail: string)
    ensures first + ("|" + more) + ("|" + tail) == first + ("|" + (more + ("|" + tail)))
  {
  }

  /** The head of a text cut at its first bar, whatever follows the text after another bar. */
  lemma HeadPart(s: string, rest: string)
    ensures SplitBar(s + ("|" + rest))[0] == BeforeBar(s)
  {
    var first := BeforeBar(s);
    var whole := s + ("|" + rest);
    if |first| == |s| {
      assert BarFree(s);
      SplitFirst(s, rest);
    } else {
      assert s == first + ("|" + s[|first| + 1..]);
      Regroup(first, s[|first| + 1..], rest);
      SplitFirst(first, s[|first| + 1..] + ("|" + rest));
    }
  }

  // ----- normal forms ---------------------------------------------------------------------

  lemma LowerKeepsSpace(c: char)
    ensures Text.IsSpace(Text.LowerChar(c)) == Text.IsSpace(c) && (Text.LowerChar(c) == '|' <==> c == '|')
    ensures Text.LowerChar(Text.LowerChar(c)) == Text.LowerChar(c)
  {
  }

  /** Normalising twice is normalising once. */
  lemma NormalTwice(s: string)
    ensures Normal(Normal(s)) == Normal(s)
    ensures Normal(s) != [] ==> Text.Strip(Normal(s)) == Normal(s)
  {
    var t := Text.Strip(s);
    Text.StripShape(s);
    hide Text.IsSpace;
    hide Text.LowerChar;
    if t != [] {
      LowerKeepsSpace(t[0]);
      LowerKeepsSpace(t[|t| - 1]);
      Text.NothingToStrip(Text.Lower(t));
      forall i | 0 <= i < |t| ensures Text.Lower(Text.Lower(t))[i] == Text.Lower(t)[i] {
        LowerKeepsSpace(t[i]);
      }
    }
  }

  lemma ScenarioKeyIsNormal(scenario: Option<string>)
    ensures var k := ScenarioKey(scenario);
            k != [] && Text.Strip(k) == k && Text.Lower(k) == k
  {
    if scenario.Some? {
      NormalTwice(scenario.value);
    }
    Text.NothingToStrip(UNSPECIFIED);
    assert Text.Lower(UNSPECIFIED) == UNSPECIFIED;
  }

  /** What is read back from the third field of a fingerprint. */
  function ReadField(field: string): string {
    if Text.Strip(field) == [] then UNSPECIFIED else Text.Lower(Text.Strip(field))
  }

  lemma NotBlank(service: string, scenario: string, hour: string)
    ensures Text.Strip(Join(service, scenario, hour)) != []
  {
    var f := Join(service, scenario, hour);
    assert f[0] == 'v' && !Text.IsSpace('v');
    Text.StripEmpty(f);
  }

  lemma ReadsThird(service: string, scenario: string, hour: string, second: string, rest: string)
    requires BarFree(second) && service + ("|" + (scenario + ("|" + hour))) == second + ("|" + rest)
    ensures ScenarioFrom(Some(Join(service, scenario, hour))) == ReadField(SplitBar(rest)[0])
  {
    NotBlank(service, scenario, hour);
    hide Text.Strip;
    hide Text.Lower;
    var tail := second + ("|" + rest);
    assert Join(service, scenario, hour) == "v1" + ("|" + tail);
    assert BarFree("v1");
    SplitFirst("v1", tail);
    SplitFirst(second, rest);
  }

  lemma {:induction false} StripIsBarFree(s: string)
    requires BarFree(s)
    ensures BarFree(Text.Strip(s))
  {
    Text.StripLeftShape(s);
    Text.StripRightShape(Text.StripLeft(s));
  }

  lemma ReadFieldIsBarFree(field: string)
    requires BarFree(field)
    ensures BarFree(ReadField(field))
  {
    StripIsBarFree(field);
    assert BarFree(UNSPECIFIED);
    var t := Text.Strip(field);
    forall i | 0 <= i < |t| ensures Text.Lower(t)[i] != '|' {
      LowerKeepsSpace(t[i]);
    }
  }

  /** The scenario survives the fingerprint exactly when it holds no bar, for a service without one. */
  lemma ScenarioReadBack(service: string, scenario: Option<string>, hour: string)
    requires Compute(service, scenario, hour).Some? && BarFree(Normal(service))
    ensures ScenarioFrom(Compute(service, scenario, hour)) == ScenarioKey(scenario) <==> BarFree(ScenarioKey(scenario))
  {
    var s, k := Normal(service), ScenarioKey(scenario);
    ScenarioKeyIsNormal(scenario);
    hide Text.Strip;
    hide Text.Lower;
    hide ScenarioKey;
    ReadsThird(s, k, hour, s, k + ("|" + hour));
    HeadPart(k, hour);
    var field := BeforeBar(k);
    ReadFieldIsBarFree(field);
    if BarFree(k) {
      FirstPart(k, hour);
    }
  }

  /** With a bar in the service the scenario is not read at all: what comes back is the second segment of
      the service. */
  lemma BarredServiceHidesScenario(service: string, scenario: Option<string>, hour: string)
    requires Compute(service, scenario, hour).Some? && !BarFree(Normal(service))
    ensures var s := Normal(service);
            ScenarioFrom(Compute(service, scenario, hour)) == ReadField(BeforeBar(s[|BeforeBar(s)| + 1..]))
  {
    var s, k := Normal(service), ScenarioKey(scenario);
    hide Text.Strip;
    hide Text.Lower;
    hide ScenarioKey;
    hide Normal;
    hide Join;
    hide SplitBar;
    hide ReadField;
    hide ScenarioFrom;
    hide BeforeBar;
    var first := BeforeBar(s);
    assert |first| < |s|;
    var more := s[|first| + 1..];
    assert s == first + ("|" + more);
    Regroup(first, more, k + ("|" + hour));
    ReadsThird(s, k, hour, first, more + ("|" + (k + ("|" + hour))));
    HeadPart(more, k + ("|" + hour));
  }

  /** Signals share a fingerprint exactly when service, scenario and hour agree, as long as no field holds
      a bar. */
  lemma FingerprintIdentifies(s1: string, c1: Option<string>, h1: string, s2: string, c2: Option<string>,
                              h2: string)
    requires Compute(s1, c1, h1).Some? && Compute(s2, c2, h2).Some?
    requires BarFree(Normal(s1)) && BarFree(Normal(s2)) && BarFree(ScenarioKey(c1)) && BarFree(ScenarioKey(c2))
    ensures Compute(s1, c1, h1) == Compute(s2, c2, h2)
       <==> Normal(s1) == Normal(s2) && ScenarioKey(c1) == ScenarioKey(c2) && h1 == h2
  {
    hide Normal;
    hide ScenarioKey;
    var a, b := Normal(s1), Normal(s2);
    var k, m := ScenarioKey(c1), ScenarioKey(c2);
    if Join(a, k, h1) == Join(b, m, h2) {
      CutSame("v1", a + ("|" + (k + ("|" + h1))), "v1", b + ("|" + (m + ("|" + h2))));
      CutSame(a, k + ("|" + h1), b, m + ("|" + h2));
      CutSame(k, h1, m, h2);
    }
  }

  /** One pair of fields reads like another with the boundary further right: what the second service adds, the
      first scenario begins with. */
  predicate Shifted(service: string, scenario: string, service2: string, scenario2: string) {
    |service| < |service2| && service2[..|service|] == service && service2[|service|] == '|'
    && scenario == service2[|service| + 1..] + ("|" + scenario2)
  }

  /** With bars allowed, signals share a fingerprint exactly when the hours agree and service and scenario do,
      or differ only in where one ends and the other begins. An hour has no bar. */
  lemma CollisionExactly(s1: string, c1: Option<string>, h1: string, s2: string, c2: Option<string>, h2: string)
    requires Compute(s1, c1, h1).Some? && Compute(s2, c2, h2).Some? && BarFree(h1) && BarFree(h2)
    ensures var a, k, b, m := Normal(s1), ScenarioKey(c1), Normal(s2), ScenarioKey(c2);
            Compute(s1, c1, h1) == Compute(s2, c2, h2)
            <==> h1 == h2 && ((a == b && k == m) || Shifted(a, k, b, m) || Shifted(b, m, a, k))
  {
    hide Normal;
    hide ScenarioKey;
    var a, k, b, m := Normal(s1), ScenarioKey(c1), Normal(s2), ScenarioKey(c2);
    var x, y := a + ("|" + k), b + ("|" + m);
    assert Join(a, k, h1) == "v1" + ("|" + (x + ("|" + h1)));
    assert Join(b, m, h2) == "v1" + ("|" + (y + ("|" + h2)));
    hide Join;
    hide Shifted;
    PairsExactly(a, k, b, m);
    if "v1" + ("|" + (x + ("|" + h1))) == "v1" + ("|" + (y + ("|" + h2))) {
      CutSame("v1", x + ("|" + h1), "v1", y + ("|" + h2));
      CutLast(x, h1, y, h2);
    }
  }

  lemma PairsExactly(a: string, k: string, b: string, m: string)
    ensures a + ("|" + k) == b + ("|" + m) <==> (a == b && k == m) || Shifted(a, k, b, m) || Shifted(b, m, a, k)
  {
    if Shifted(a, k, b, m) {
      ShiftedReads(a, k, b, m);
    }
    if Shifted(b, m, a, k) {
      ShiftedReads(b, m, a, k);
    }
    if a + ("|" + k) == b + ("|" + m) {
      if |a| < |b| {
        SameTextShifts(a, k, b, m);
      } else if |b| < |a| {
        SameTextShifts(b, m, a, k);
      } else {
        var w := a + ("|" + k);
        assert a == w[..|a|] && b == w[..|b|];
        assert k == w[|a| + 1..] && m == w[|b| + 1..];
      }
    }
  }

  lemma ShiftedReads(a: string, k: string, b: string, m: string)
    requires Shifted(a, k, b, m)
    ensures a + ("|" + k) == b + ("|" + m)
  {
    var more := b[|a| + 1..];
    assert b == a + ("|" + more);
    Regroup(a, more, m);
  }

  lemma SameTextShifts(a: string, k: string, b: string, m: string)
    requires a + ("|" + k) == b + ("|" + m) && |a| < |b|
    ensures Shifted(a, k, b, m)
  {
    var w := a + ("|" + k);
    assert w[|a|] == '|' && w[..|a|] == a && w[|a| + 1..] == k;
    assert w[..|b|] == b;
    assert b[..|a|] == w[..|a|] && b[|a|] == w[|a|];
    assert w[|a| + 1..] == b[|a| + 1..] + ("|" + m);
  }

  /** A text can be cut at its last bar in one way only. */
  lemma CutLast(x: string, h: string, y: string, g: string)
    requires BarFree(h) && BarFree(g) && x + ("|" + h) == y + ("|" + g)
    ensures x == y && h == g
  {
    var w := x + ("|" + h);
    assert w[|x|] == '|' && w[|y|] == '|';
    assert forall i | |x| < i < |w| :: w[i] == h[i - |x| - 1];
    assert forall i | |y| < i < |w| :: w[i] == g[i - |y| - 1];
    assert |x| == |y|;
    assert x == w[..|x|] && y == w[..|y|];
    assert h == w[|x| + 1..] && g == w[|y| + 1..];
  }

  lemma CutSame(x1: string, y1: string, x2: string, y2: string)
    requires BarFree(x1) && BarFree(x2) && x1 + ("|" + y1) == x2 + ("|" + y2)
    ensures x1 == x2 && y1 == y2
  {
    FirstPart(x1, y1);
    FirstPart(x2, y2);
    var s := x1 + ("|" + y1);
    assert s == x1 + "|" + y1 && s == x2 + "|" + y2;
    assert y1 == s[|x1| + 1..] && y2 == s[|x2| + 1..];
  }
}
