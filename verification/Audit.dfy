/** The audit log: one hash-chained row for each gateway decision. */
module Audit {
  import opened Json
  import opened Options
  import opened Policy
  import Text

  datatype GatewayVerdict = Allow | Deny | Pending

  /** The keys of the hashed payload. */
  datatype Field =
    | Id | Actor | Action | Input | Output | Decision | Reason | IncidentId | Class | CreatedAt
    | PolicyVersionKey | DenyAllKey | PrevHash

  /** SHA-256 of a payload as canonical JSON, in hexadecimal. */
  type RowHash = map<Field, Json> -> string

  const GENESIS: string := Text.Zeros(64)

  /** What a row is made from, before cleaning. */
  datatype Draft = Draft(id: string, actor: string, action: string, input: map<string, Json>,
                         output: Option<map<string, Json>>, decision: GatewayVerdict, reason: string,
                         incidentId: string, actionClass: Option<ActionClass>, createdAt: string,
                         policyVersion: string, denyAll: bool)

  datatype Entry = Entry(body: Draft, prevHash: string, rowHash: string)

  function Cleaned(d: Draft): Draft {
    d.(actor := Text.Strip(d.actor), action := Text.Strip(d.action), reason := Text.Strip(d.reason),
       incidentId := Text.Strip(d.incidentId), policyVersion := Text.Strip(d.policyVersion))
  }

  predicate Clean(d: Draft) {
    Cleaned(d) == d
  }

  /** The length limits of a row. */
  predicate WithinLimits(d: Draft) {
    var c := Cleaned(d);
    && |c.policyVersion| <= 64
    && 0 < |c.actor| <= 128 && 0 < |c.action| <= 128
    && |c.reason| <= 255 && 0 < |c.incidentId| <= 64
  }

  function VerdictName(v: GatewayVerdict): string {
    match v case Allow => "allow" case Deny => "deny" case Pending => "pending"
  }

  function ClassJson(c: Option<ActionClass>): Json {
    match c
    case None => Null
    case Some(Read) => Str("read")
    case Some(LowRiskWrite) => Str("low-risk-write")
    case Some(HighRiskWrite) => Str("high-risk-write")
    case Some(Destructive) => Str("destructive")
  }

  function Always(d: Draft): map<Field, Json> {
    map[Id := Str(d.id), Actor := Str(d.actor), Action := Str(d.action), Input := Obj(d.input),
        Output := (if d.output.None? then Null else Obj(d.output.value)),
        Decision := Str(VerdictName(d.decision)), Reason := Str(d.reason), IncidentId := Str(d.incidentId),
        Class := ClassJson(d.actionClass), CreatedAt := Str(d.createdAt)]
  }

  function WhenSet(d: Draft): map<Field, Json> {
    (if d.policyVersion != [] then map[PolicyVersionKey := Str(d.policyVersion)] else map[])
    + (if d.denyAll then map[DenyAllKey := Bool(true)] else map[])
  }

  /** The hashed payload. The two newest fields are left out when blank or false, so that rows written
      before they existed keep their digest. */
  function Payload(d: Draft): map<Field, Json> {
    Always(d) + WhenSet(d)
  }

  /** What is hashed: the payload and the previous digest. */
  function HashedBody(d: Draft, prev: string): map<Field, Json> {
    Payload(d)[PrevHash := Str(prev)]
  }

  function ComputeRowHash(hash: RowHash, d: Draft, prev: string): string {
    hash(HashedBody(d, prev))
  }

  /** The row for a draft, or nothing when the draft breaks a limit. */
  function CreateEntry(hash: RowHash, draft: Draft, prev: string): Option<Entry> {
    var d := Cleaned(draft);
    var chainPrev := if Text.Strip(prev) == [] then GENESIS else Text.Strip(prev);
    if WithinLimits(draft) then Some(Entry(d, chainPrev, ComputeRowHash(hash, d, chainPrev))) else None
  }

  class MemoryAuditRepository {
    var entries: seq<Entry>

    constructor ()
      ensures entries == []
    {
      entries := [];
    }

    method Append(entry: Entry)
      modifies this
      ensures entries == old(entries) + [entry]
    {
      entries := entries + [entry];
    }

    method LatestHash() returns (h: string)
      ensures h == Head(entries)
    {
      if entries == [] {
        return GENESIS;
      }
      return entries[|entries| - 1].rowHash;
    }

    method Get(id: string) returns (found: Option<Entry>)
      ensures found.Some? ==> found.value in entries && found.value.body.id == id
      ensures found.None? ==> forall e | e in entries :: e.body.id != id
    {
      for i := 0 to |entries|
        invariant forall j | 0 <= j < i :: entries[j].body.id != id
      {
        if entries[i].body.id == id {
          return Some(entries[i]);
        }
      }
      return None;
    }

    method Drain() returns (items: seq<Entry>)
      modifies this
      ensures items == old(entries) && entries == []
    {
      items := entries;
      entries := [];
    }
  }

  /** The digest the next row links to. */
  function Head(rows: seq<Entry>): string {
    if rows == [] then GENESIS else rows[|rows| - 1].rowHash
  }

  /** The log after one recorded draft; unchanged when the draft is refused. */
  function Recorded(hash: RowHash, rows: seq<Entry>, draft: Draft): seq<Entry> {
    var made := CreateEntry(hash, draft, Head(rows));
    if made.None? then rows else rows + [made.value]
  }

  class AppendAudit {
    const hash: RowHash
    const log: MemoryAuditRepository

    constructor (hash: RowHash, log: MemoryAuditRepository)
      ensures this.hash == hash && this.log == log
    {
      this.hash, this.log := hash, log;
    }

    method Record(draft: Draft) returns (entry: Option<Entry>)
      modifies log
      ensures log.entries == Recorded(hash, old(log.entries), draft)
      ensures entry == CreateEntry(hash, draft, Head(old(log.entries)))
    {
      var prev := log.LatestHash();
      entry := CreateEntry(hash, draft, prev);
      if entry.Some? {
        log.Append(entry.value);
      }
    }
  }
}
