/** What the chain of digests proves about the rows. */
module AuditChain {
  import opened Json
  import opened Options
  import opened Policy
  import opened Audit
  import Text

  /** A digest is 64 characters without white space, whatever is hashed. */
  ghost predicate HexDigest(hash: RowHash) {
    forall x :: |hash(x)| == 64 && Text.Strip(hash(x)) == hash(x)
  }

  /** No two of the hashed bodies share a digest, and none has the genesis value. */
  ghost predicate NoCollision(hash: RowHash, bodies: set<map<Field, Json>>) {
    && (forall x, y | x in bodies && y in bodies && hash(x) == hash(y) :: x == y)
    && forall x | x in bodies :: hash(x) != GENESIS
  }

  function BodiesOf(rows: seq<Entry>): set<map<Field, Json>> {
    set e | e in rows :: HashedBody(e.body, e.prevHash)
  }

  /** Rows linked from genesis, each with the digest of its own contents. */
  ghost predicate IsChain(hash: RowHash, rows: seq<Entry>) {
    rows == []
    || (var front, last := rows[..|rows| - 1], rows[|rows| - 1];
        && IsChain(hash, front)
        && Clean(last.body)
        && last.prevHash == Head(front)
        && last.rowHash == ComputeRowHash(hash, last.body, last.prevHash))
  }

  lemma VerdictNamesDiffer(x: GatewayVerdict, y: GatewayVerdict)
    ensures VerdictName(x) == VerdictName(y) ==> x == y
  {
    assert |VerdictName(Allow)| == 5 && |VerdictName(Deny)| == 4 && |VerdictName(Pending)| == 7;
  }

  lemma ClassesDiffer(x: Option<ActionClass>, y: Option<ActionClass>)
    ensures ClassJson(x) == ClassJson(y) ==> x == y
  {
    assert |"read"| == 4 && |"low-risk-write"| == 14 && |"high-risk-write"| == 15 && |"destructive"| == 11;
  }

  /** The words a payload uses. */
  lemma WordsExactly(c: ActionClass)
    ensures ClassJson(None) == Null
    ensures ClassJson(Some(c)) == Str(match c case Read => "read" case LowRiskWrite => "low-risk-write"
                                              case HighRiskWrite => "high-risk-write" case Destructive => "destructive")
    ensures VerdictName(Allow) == "allow" && VerdictName(Deny) == "deny" && VerdictName(Pending) == "pending"
    ensures forall d: Draft | d.denyAll :: DenyAllKey in WhenSet(d) && WhenSet(d)[DenyAllKey] == Bool(true)
  {
  }

  /** What stands under each key of a payload. */
  ghost predicate ReadsAs(p: map<Field, Json>, d: Draft) {
    && p.Keys >= {Id, Actor, Action, Input, Output, Decision, Reason, IncidentId, Class, CreatedAt}
    && p[Id] == Str(d.id) && p[Actor] == Str(d.actor) && p[Action] == Str(d.action) && p[Input] == Obj(d.input)
    && p[Output] == (if d.output.None? then Null else Obj(d.output.value))
    && p[Decision] == Str(VerdictName(d.decision)) && p[Reason] == Str(d.reason)
    && p[IncidentId] == Str(d.incidentId) && p[Class] == ClassJson(d.actionClass) && p[CreatedAt] == Str(d.createdAt)
    && (PolicyVersionKey in p <==> d.policyVersion != [])
    && (PolicyVersionKey in p ==> p[PolicyVersionKey] == Str(d.policyVersion))
    && (DenyAllKey in p <==> d.denyAll)
  }

  lemma AlwaysReads(d: Draft)
    ensures var p := Always(d);
            && p.Keys == {Id, Actor, Action, Input, Output, Decision, Reason, IncidentId, Class, CreatedAt}
            && p[Id] == Str(d.id) && p[Actor] == Str(d.actor) && p[Action] == Str(d.action) && p[Input] == Obj(d.input)
            && p[Output] == (if d.output.None? then Null else Obj(d.output.value))
            && p[Decision] == Str(VerdictName(d.decision)) && p[Reason] == Str(d.reason)
            && p[IncidentId] == Str(d.incidentId) && p[Class] == ClassJson(d.actionClass)
            && p[CreatedAt] == Str(d.createdAt)
  {
    hide VerdictName;
    hide ClassJson;
  }

  lemma WhenSetReads(d: Draft)
    ensures var p := WhenSet(d);
            && p.Keys <= {PolicyVersionKey, DenyAllKey}
            && (PolicyVersionKey in p <==> d.policyVersion != [])
            && (PolicyVersionKey in p ==> p[PolicyVersionKey] == Str(d.policyVersion))
            && (DenyAllKey in p <==> d.denyAll)
  {
  }

  lemma PayloadReads(d: Draft)
    ensures ReadsAs(Payload(d), d) && PrevHash !in Payload(d)
  {
    hide VerdictName;
    hide ClassJson;
    AlwaysReads(d);
    WhenSetReads(d);
    hide Always;
    hide WhenSet;
  }

  /** The payload gives back every field of the row, the two that may be left out included. */
  lemma PayloadInjective(p: map<Field, Json>, x: Draft, y: Draft)
    requires ReadsAs(p, x) && ReadsAs(p, y)
    ensures x == y
  {
    hide VerdictName;
    hide ClassJson;
    VerdictNamesDiffer(x.decision, y.decision);
    ClassesDiffer(x.actionClass, y.actionClass);
  }

  lemma HashedBodyInjective(x: Draft, xp: string, y: Draft, yp: string)
    requires HashedBody(x, xp) == HashedBody(y, yp)
    ensures x == y && xp == yp
  {
    PayloadReads(x);
    PayloadReads(y);
    hide Payload;
    hide ReadsAs;
    var p, q := HashedBody(x, xp), HashedBody(y, yp);
    assert p[PrevHash] == q[PrevHash];
    assert Payload(x) == p - {PrevHash} && Payload(y) == q - {PrevHash};
    PayloadInjective(Payload(x), x, y);
  }

  /** Unless their bodies collide, two rows share a digest exactly when every field and the previous digest
      agree. */
  lemma RowHashInjective(hash: RowHash, x: Draft, xp: string, y: Draft, yp: string)
    requires NoCollision(hash, {HashedBody(x, xp), HashedBody(y, yp)})
    ensures ComputeRowHash(hash, x, xp) == ComputeRowHash(hash, y, yp) <==> x == y && xp == yp
  {
    hide HashedBody;
    if ComputeRowHash(hash, x, xp) == ComputeRowHash(hash, y, yp) {
      HashedBodyInjective(x, xp, y, yp);
    }
  }

  lemma FewerBodies(hash: RowHash, some: set<map<Field, Json>>, all: set<map<Field, Json>>)
    requires some <= all && NoCollision(hash, all)
    ensures NoCollision(hash, some)
  {
  }

  lemma BodiesOfParts(rows: seq<Entry>)
    requires rows != []
    ensures BodiesOf(rows[..|rows| - 1]) <= BodiesOf(rows)
    ensures HashedBody(rows[|rows| - 1].body, rows[|rows| - 1].prevHash) in BodiesOf(rows)
  {
    hide HashedBody;
    assert rows[|rows| - 1] in rows;
    assert forall e | e in rows[..|rows| - 1] :: e in rows;
  }

  /** Tamper evidence: the last digest pins down the whole log. Two chains share it exactly when they are the
      same rows, field by field, unless two of the bodies they hash collide. */
  lemma {:induction false} SameHeadSameRows(hash: RowHash, x: seq<Entry>, y: seq<Entry>)
    requires IsChain(hash, x) && IsChain(hash, y) && NoCollision(hash, BodiesOf(x) + BodiesOf(y))
    ensures Head(x) == Head(y) <==> x == y
  {
    hide HashedBody;
    hide Clean;
    hide NoCollision;
    hide BodiesOf;
    if Head(x) == Head(y) {
      var all := BodiesOf(x) + BodiesOf(y);
      FewerBodies(hash, BodiesOf(x), all);
      FewerBodies(hash, BodiesOf(y), all);
      NotGenesis(hash, x);
      NotGenesis(hash, y);
      if x != [] {
        BodiesOfParts(x);
        BodiesOfParts(y);
        var front, back := x[..|x| - 1], y[..|y| - 1];
        var a, b := x[|x| - 1], y[|y| - 1];
        FewerBodies(hash, BodiesOf(front) + BodiesOf(back), all);
        FewerBodies(hash, {HashedBody(a.body, a.prevHash), HashedBody(b.body, b.prevHash)}, all);
        RowHashInjective(hash, a.body, a.prevHash, b.body, b.prevHash);
        SameHeadSameRows(hash, front, back);
        assert x == front + [a] && y == back + [b];
      }
    }
  }

  lemma NotGenesis(hash: RowHash, rows: seq<Entry>)
    requires IsChain(hash, rows) && NoCollision(hash, BodiesOf(rows))
    ensures Head(rows) == GENESIS <==> rows == []
  {
    hide HashedBody;
    if rows != [] {
      BodiesOfParts(rows);
    }
  }

  lemma GenesisIsClean()
    ensures Text.Strip(GENESIS) == GENESIS && GENESIS != []
  {
    assert GENESIS[0] == '0' && GENESIS[63] == '0';
    Text.NothingToStrip(GENESIS);
  }

  lemma CleanedIsClean(d: Draft)
    ensures Clean(Cleaned(d))
  {
    Text.StripTwice(d.actor);
    Text.StripTwice(d.action);
    Text.StripTwice(d.reason);
    Text.StripTwice(d.incidentId);
    Text.StripTwice(d.policyVersion);
  }

  lemma HeadIsClean(hash: RowHash, rows: seq<Entry>)
    requires HexDigest(hash) && IsChain(hash, rows)
    ensures Text.Strip(Head(rows)) == Head(rows) != []
  {
    GenesisIsClean();
  }

  /** Recording keeps the chain, adds the row that says what was decided, and is refused exactly when a
      field breaks its limit. */
  lemma RecordingExtends(hash: RowHash, rows: seq<Entry>, draft: Draft)
    requires HexDigest(hash) && IsChain(hash, rows)
    ensures IsChain(hash, Recorded(hash, rows, draft))
    ensures Recorded(hash, rows, draft)
         == if WithinLimits(draft)
            then rows + [Entry(Cleaned(draft), Head(rows), ComputeRowHash(hash, Cleaned(draft), Head(rows)))]
            else rows
  {
    HeadIsClean(hash, rows);
    CleanedIsClean(draft);
    var r := Recorded(hash, rows, draft);
    hide ComputeRowHash;
    hide Cleaned;
    hide WithinLimits;
    if WithinLimits(draft) {
      assert r[..|r| - 1] == rows;
    }
  }

  /** What a recorded row holds: the drafted fields, the five texts among them stripped, and the digest of the
      row before, or 64 zeros; and which drafts are refused: those with a text too long, or without actor, action
      or incident. */
  lemma EntryExactly(hash: RowHash, rows: seq<Entry>, draft: Draft)
    requires HexDigest(hash) && IsChain(hash, rows)
    ensures var after := Recorded(hash, rows, draft);
            var short := && 0 < |Text.Strip(draft.actor)| <= 128 && 0 < |Text.Strip(draft.action)| <= 128
                         && 0 < |Text.Strip(draft.incidentId)| <= 64 && |Text.Strip(draft.reason)| <= 255
                         && |Text.Strip(draft.policyVersion)| <= 64;
            if !short then after == rows
            else
              && |after| == |rows| + 1 && after[..|rows|] == rows
              && var row := after[|rows|];
                 && row.body.id == draft.id && row.body.input == draft.input && row.body.output == draft.output
                 && row.body.decision == draft.decision && row.body.actionClass == draft.actionClass
                 && row.body.createdAt == draft.createdAt && row.body.denyAll == draft.denyAll
                 && row.body.actor == Text.Strip(draft.actor) && row.body.action == Text.Strip(draft.action)
                 && row.body.incidentId == Text.Strip(draft.incidentId) && row.body.reason == Text.Strip(draft.reason)
                 && row.body.policyVersion == Text.Strip(draft.policyVersion)
                 && (if rows == [] then |row.prevHash| == 64 && forall c | c in row.prevHash :: c == '0'
                     else row.prevHash == rows[|rows| - 1].rowHash)
  {
    RecordingExtends(hash, rows, draft);
    hide IsChain;
    hide HexDigest;
    hide ComputeRowHash;
    hide Text.Strip;
    hide Recorded;
  }

  /** In a chain only the first row links to genesis. */
  lemma {:induction false} GenesisMarksStart(hash: RowHash, rows: seq<Entry>, i: nat)
    requires IsChain(hash, rows) && NoCollision(hash, BodiesOf(rows)) && i < |rows|
    ensures rows[i].prevHash == GENESIS <==> i == 0
  {
    hide HashedBody;
    hide NoCollision;
    hide BodiesOf;
    BodiesOfParts(rows);
    var front := rows[..|rows| - 1];
    FewerBodies(hash, BodiesOf(front), BodiesOf(rows));
    if i < |front| {
      GenesisMarksStart(hash, front, i);
    } else {
      NotGenesis(hash, front);
    }
  }

  /** Draining starts a new chain, so what is stored over several drains is no longer one chain: the
      rows of two drains joined are a chain exactly when one of them is empty. */
  lemma DrainsDoNotLink(hash: RowHash, x: seq<Entry>, y: seq<Entry>)
    requires IsChain(hash, x) && IsChain(hash, y) && NoCollision(hash, BodiesOf(x + y))
    ensures IsChain(hash, x + y) <==> x == [] || y == []
  {
    hide IsChain;
    hide HashedBody;
    hide NoCollision;
    if x == [] {
      assert x + y == y;
    } else if y == [] {
      assert x + y == x;
    } else {
      FewerBodies(hash, BodiesOf(y), BodiesOf(x + y));
      GenesisMarksStart(hash, y, 0);
      if IsChain(hash, x + y) {
        GenesisMarksStart(hash, x + y, |x|);
      }
    }
  }

  // ----- such digests exist ---------------------------------------------------------------

  function Pow16(n: nat): nat {
    if n == 0 then 1 else 16 * Pow16(n - 1)
  }

  function HexDigit(d: nat): char
    requires d < 16
  {
    if d < 10 then '0' + d as char else 'a' + (d - 10) as char
  }

  /** The last `n` hexadecimal digits of a number. */
  function Hex(k: nat, n: nat): (s: string)
    ensures |s| == n
  {
    if n == 0 then [] else Hex(k / 16, n - 1) + [HexDigit(k % 16)]
  }

  lemma {:induction false} HexPlain(k: nat, n: nat)
    ensures forall i | 0 <= i < n :: !Text.IsSpace(Hex(k, n)[i])
  {
    if n > 0 {
      HexPlain(k / 16, n - 1);
    }
  }

  lemma {:induction false} HexInjective(k: nat, m: nat, n: nat)
    requires k < Pow16(n) && m < Pow16(n) && Hex(k, n) == Hex(m, n)
    ensures k == m
  {
    if n > 0 {
      var x, y := Hex(k, n), Hex(m, n);
      assert x[n - 1] == HexDigit(k % 16) && y[n - 1] == HexDigit(m % 16);
      assert x[..n - 1] == Hex(k / 16, n - 1) && y[..n - 1] == Hex(m / 16, n - 1);
      HexInjective(k / 16, m / 16, n - 1);
    }
  }

  lemma {:induction false} HexOfZero(n: nat)
    ensures Hex(0, n) == Text.Zeros(n) && Pow16(n) > 0
  {
    if n > 0 {
      HexOfZero(n - 1);
    }
  }

  lemma {:induction false} Numbering(bodies: set<map<Field, Json>>) returns (number: map<Field, Json> -> nat)
    ensures forall x :: number(x) <= |bodies| && (x in bodies ==> number(x) >= 1)
    ensures forall x, y | x in bodies && y in bodies && number(x) == number(y) :: x == y
    decreases |bodies|
  {
    if bodies == {} {
      number := x => 0;
    } else {
      var b :| b in bodies;
      var n := |bodies|;
      var rest := Numbering(bodies - {b});
      number := x => if x == b then n else rest(x);
    }
  }

  /** For whatever is hashed there is a digest as required above, as long as there are enough digests. */
  lemma DigestExists(bodies: set<map<Field, Json>>) returns (hash: RowHash)
    requires |bodies| < Pow16(64)
    ensures HexDigest(hash) && NoCollision(hash, bodies)
  {
    hide Pow16;
    hide Hex;
    var number := Numbering(bodies);
    hash := x => Hex(number(x), 64);
    forall x ensures |hash(x)| == 64 && Text.Strip(hash(x)) == hash(x) {
      HexPlain(number(x), 64);
      Text.NothingToStrip(hash(x));
    }
    forall x, y | x in bodies && y in bodies && hash(x) == hash(y) ensures x == y {
      HexInjective(number(x), number(y), 64);
    }
    HexOfZero(64);
    forall x | x in bodies ensures hash(x) != GENESIS {
      if hash(x) == GENESIS {
        HexInjective(number(x), 0, 64);
      }
    }
  }
}
