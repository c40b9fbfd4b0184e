/** The in-memory token bucket and the two-key limiter in front of every tool call. */
module RateLimit {

  /** What the store remembers of one key: tokens left, and when they were counted. */
  datatype Bucket = Bucket(tokens: real, updatedAt: real)

  type Buckets = map<string, Bucket>

  /** One key of an acquisition, with the capacity and window the caller configured. */
  datatype Item = Item(key: string, capacity: int, window: real)

  function Max(x: real, y: real): real {
    if x < y then y else x
  }

  function Min(x: real, y: real): real {
    if x < y then x else y
  }

  predicate Usable(item: Item) {
    item.capacity >= 1 && item.window > 0.0
  }

  /** Tokens gained per second. */
  function Rate(item: Item): real
    requires Usable(item)
  {
    item.capacity as real / item.window
  }

  /** Tokens gained over a stretch of time. */
  function Gain(item: Item, dt: real): real
    requires Usable(item)
  {
    dt * Rate(item)
  }

  /** Tokens the key has at `now`; a key never seen is full, and time never runs backwards. */
  function Level(buckets: Buckets, item: Item, now: real): real
    requires Usable(item)
  {
    if item.key !in buckets then item.capacity as real
    else
      var b := buckets[item.key];
      Min(item.capacity as real, b.tokens + Gain(item, Max(0.0, now - b.updatedAt)))
  }

  /** Whether the whole acquisition goes through. */
  predicate Grants(buckets: Buckets, items: seq<Item>, now: real) {
    forall i | 0 <= i < |items| :: Usable(items[i]) && Level(buckets, items[i], now) >= 1.0
  }

  /** The buckets after a granted acquisition: each named key lost one token at `now`. */
  function Taken(buckets: Buckets, items: seq<Item>, now: real): (after: Buckets)
    requires forall i | 0 <= i < |items| :: Usable(items[i])
    ensures forall k :: k in after <==> k in buckets || exists i | 0 <= i < |items| :: items[i].key == k
  {
    if items == [] then buckets
    else
      var last := items[|items| - 1];
      var rest := Taken(buckets, items[..|items| - 1], now);
      rest[last.key := Bucket(Level(buckets, last, now) - 1.0, now)]
  }

  /** The entry one granted item writes. */
  function Spent(buckets: Buckets, item: Item, now: real): (string, Bucket)
    requires Usable(item)
  {
    (item.key, Bucket(Level(buckets, item, now) - 1.0, now))
  }

  /** In numbers: a key never seen has its capacity; a seen one has gained capacity over window for every second since
      it was counted, none for a clock that went back, and never holds more than its capacity. */
  lemma LevelIs(buckets: Buckets, item: Item, now: real)
    requires Usable(item)
    ensures item.key !in buckets ==> Level(buckets, item, now) == item.capacity as real
    ensures item.key in buckets ==>
              var b := buckets[item.key];
              var since := if now < b.updatedAt then 0.0 else now - b.updatedAt;
              var gained := b.tokens + since * (item.capacity as real / item.window);
              Level(buckets, item, now) == if gained < item.capacity as real then gained else item.capacity as real
  {
  }

  lemma TakenStep(buckets: Buckets, items: seq<Item>, now: real, i: nat)
    requires i < |items|
    requires forall j | 0 <= j < |items| :: Usable(items[j])
    ensures Taken(buckets, items[..i + 1], now)
         == Taken(buckets, items[..i], now)[items[i].key := Spent(buckets, items[i], now).1]
  {
    hide Level;
    assert items[..i + 1][..i] == items[..i];
  }

  function Acquire(buckets: Buckets, items: seq<Item>, now: real): (r: (bool, Buckets)) {
    if Grants(buckets, items, now) then (true, Taken(buckets, items, now)) else (false, buckets)
  }

  predicate DistinctKeys(items: seq<Item>) {
    forall i, j | 0 <= i < j < |items| :: items[i].key != items[j].key
  }

  /** All or nothing: over distinct keys a grant costs each key exactly one token, counted at
      `now`, and touches no other key; a refusal writes nothing at all. */
  lemma {:induction false} OneTokenEachOrNothing(buckets: Buckets, items: seq<Item>, now: real)
    requires DistinctKeys(items)
    ensures var (ok, after) := Acquire(buckets, items, now);
            if ok then
              && (forall i | 0 <= i < |items| ::
                    && Usable(items[i])
                    && items[i].key in after
                    && after[items[i].key].updatedAt == now
                    && 0.0 <= after[items[i].key].tokens == Level(buckets, items[i], now) - 1.0)
              && (forall k | k in after && (forall i | 0 <= i < |items| :: items[i].key != k) ::
                    k in buckets && after[k] == buckets[k])
            else after == buckets
  {
    if Grants(buckets, items, now) {
      TakenContents(buckets, items, now);
    }
  }

  lemma {:induction false} TakenContents(buckets: Buckets, items: seq<Item>, now: real)
    requires DistinctKeys(items)
    requires forall i | 0 <= i < |items| :: Usable(items[i])
    ensures forall i | 0 <= i < |items| ::
              && items[i].key in Taken(buckets, items, now)
              && Taken(buckets, items, now)[items[i].key] == Bucket(Level(buckets, items[i], now) - 1.0, now)
    ensures forall k | k in Taken(buckets, items, now) && (forall i | 0 <= i < |items| :: items[i].key != k) ::
              k in buckets && Taken(buckets, items, now)[k] == buckets[k]
  {
    if items != [] {
      var front := items[..|items| - 1];
      TakenContents(buckets, front, now);
      assert forall i | 0 <= i < |front| :: front[i] == items[i];
      var last := items[|items| - 1];
      forall k | k in Taken(buckets, items, now) && (forall i | 0 <= i < |items| :: items[i].key != k)
        ensures k in buckets && Taken(buckets, items, now)[k] == buckets[k]
      {
        assert last.key != k;
        assert k in Taken(buckets, front, now);
      }
    }
  }

  /** The process-local store. The clock reading is an argument of each call. */
  class MemoryTokenBucket {
    var buckets: Buckets

    constructor ()
      ensures buckets == map[]
    {
      buckets := map[];
    }

    method TryAcquireAll(items: seq<Item>, now: real) returns (ok: bool)
      modifies this
      ensures (ok, buckets) == Acquire(old(buckets), items, now)
    {
      hide Level;
      var nextState: seq<(string, Bucket)> := [];
      for i := 0 to |items|
        invariant buckets == old(buckets)
        invariant |nextState| == i
        invariant forall j | 0 <= j < i :: Usable(items[j]) && Level(buckets, items[j], now) >= 1.0
        invariant forall j | 0 <= j < i :: nextState[j] == Spent(buckets, items[j], now)
      {
        var item := items[i];
        if item.capacity < 1 || item.window <= 0.0 {
          return false;
        }
        var tokens := Level(buckets, item, now);
        if tokens < 1.0 {
          return false;
        }
        nextState := nextState + [(item.key, Bucket(tokens - 1.0, now))];
      }
      WriteBack(items, nextState, now);
      return true;
    }

    /** Stores what the first loop staged. */
    method WriteBack(items: seq<Item>, nextState: seq<(string, Bucket)>, now: real)
      requires |nextState| == |items| && forall j | 0 <= j < |items| :: Usable(items[j])
      requires forall j | 0 <= j < |items| ::
                 nextState[j] == Spent(buckets, items[j], now) && nextState[j].0 == items[j].key
      modifies this
      ensures buckets == Taken(old(buckets), items, now)
    {
      hide Spent;
      for i := 0 to |nextState|
        invariant buckets == Taken(old(buckets), items[..i], now)
      {
        TakenStep(old(buckets), items, now, i);
        buckets := buckets[nextState[i].0 := nextState[i].1];
      }
      assert items[..|items|] == items;
    }
  }

  /** Env-backed caps shared by every call of one limiter. */
  datatype Limits = Limits(window: real, perToolIncident: int, perAgent: int, failClosed: bool)

  datatype Decision = Decision(allowed: bool, reason: string)

  const REASON_RATE_LIMITED := "denied:rate_limited"
  const REASON_RATE_UNAVAILABLE := "denied:rate_unavailable"
  const REASON_STORE_SKIPPED := "allowed:rate_store_skipped"
  const REASON_RATE_OK := "allowed:rate"

  function IncidentKey(agent: string, tool: string, incident: string): string {
    "incident:" + agent + ":" + tool + ":" + incident
  }

  function AgentKey(agent: string): string {
    "agent:" + agent
  }

  /** The two keys one tool call draws from. */
  function KeysOf(limits: Limits, agent: string, tool: string, incident: string): (items: seq<Item>)
    ensures DistinctKeys(items)
  {
    assert IncidentKey(agent, tool, incident)[0] == 'i' && AgentKey(agent)[0] == 'a';
    [ Item(IncidentKey(agent, tool, incident), limits.perToolIncident, limits.window),
      Item(AgentKey(agent), limits.perAgent, limits.window) ]
  }

  /** The limiter's answer. `storeFails` stands for the store raising: the configured mode then
      decides, and no token moves. */
  function Allow(limits: Limits, buckets: Buckets, agent: string, tool: string, incident: string,
                 now: real, storeFails: bool): (r: (Decision, Buckets))
  {
    if storeFails then
      (if limits.failClosed then Decision(false, REASON_RATE_UNAVAILABLE)
       else Decision(true, REASON_STORE_SKIPPED), buckets)
    else
      var (ok, after) := Acquire(buckets, KeysOf(limits, agent, tool, incident), now);
      (if ok then Decision(true, REASON_RATE_OK) else Decision(false, REASON_RATE_LIMITED), after)
  }

  /** What the limiter answers, in the words of its callers. */
  lemma LimiterAnswers(limits: Limits, buckets: Buckets, agent: string, tool: string, incident: string, now: real,
                       storeFails: bool)
    ensures var (d, after) := Allow(limits, buckets, agent, tool, incident, now, storeFails);
            if storeFails then
              after == buckets
              && d == if limits.failClosed then Decision(false, "denied:rate_unavailable")
                      else Decision(true, "allowed:rate_store_skipped")
            else
              && d.reason == (if d.allowed then "allowed:rate" else "denied:rate_limited")
              && (d.allowed <==> Grants(buckets, KeysOf(limits, agent, tool, incident), now))
              && (!d.allowed ==> after == buckets)
  {
    hide Grants;
  }

  class RateLimiter {
    const limits: Limits
    const store: MemoryTokenBucket

    constructor (limits: Limits, store: MemoryTokenBucket)
      ensures this.limits == limits && this.store == store
    {
      this.limits := limits;
      this.store := store;
    }

    method Check(agent: string, tool: string, incident: string, now: real, storeFails: bool)
      returns (d: Decision)
      modifies store
      ensures (d, store.buckets) == Allow(limits, old(store.buckets), agent, tool, incident, now, storeFails)
    {
      var incidentKey := "incident:" + agent + ":" + tool + ":" + incident;
      var agentKey := "agent:" + agent;
      if storeFails {
        if limits.failClosed {
          return Decision(false, REASON_RATE_UNAVAILABLE);
        }
        return Decision(true, REASON_STORE_SKIPPED);
      }
      var ok := store.TryAcquireAll(
        [Item(incidentKey, limits.perToolIncident, limits.window),
         Item(agentKey, limits.perAgent, limits.window)], now);
      if !ok {
        return Decision(false, REASON_RATE_LIMITED);
      }
      return Decision(true, REASON_RATE_OK);
    }
  }

  predicate ColonFree(s: string) {
    ':' !in s
  }

  /** The part of an incident key in front of the incident. */
  function KeyHead(agent: string, tool: string): string {
    "incident:" + agent + ":" + tool + ":"
  }

  /** For one agent and tool separate incidents draw from separate buckets, whatever the names hold, and no
      incident bucket is an agent bucket; each agent has its own. */
  lemma OneToolNeverShares(agent: string, tool: string, i1: string, i2: string, other: string)
    ensures IncidentKey(agent, tool, i1) == IncidentKey(agent, tool, i2) <==> i1 == i2
    ensures IncidentKey(agent, tool, i1) != AgentKey(other)
    ensures AgentKey(agent) == AgentKey(other) <==> agent == other
  {
    var h := KeyHead(agent, tool);
    assert IncidentKey(agent, tool, i1) == h + i1 && IncidentKey(agent, tool, i2) == h + i2;
    assert i1 == (h + i1)[|h|..] && i2 == (h + i2)[|h|..];
    assert IncidentKey(agent, tool, i1)[0] == 'i' && AgentKey(other)[0] == 'a';
    assert agent == AgentKey(agent)[6..] && other == AgentKey(other)[6..];
  }

  /** Two pairs of agent and tool can meet in one bucket exactly when the key head of one begins that of the
      other. */
  lemma SharedBuckets(a1: string, t1: string, a2: string, t2: string)
    ensures (exists i1, i2 :: IncidentKey(a1, t1, i1) == IncidentKey(a2, t2, i2))
       <==> KeyHead(a1, t1) <= KeyHead(a2, t2) || KeyHead(a2, t2) <= KeyHead(a1, t1)
  {
    var h1, h2 := KeyHead(a1, t1), KeyHead(a2, t2);
    forall i1, i2 ensures IncidentKey(a1, t1, i1) == h1 + i1 && IncidentKey(a2, t2, i2) == h2 + i2 {
    }
    hide IncidentKey;
    hide KeyHead;
    if exists i1, i2 :: IncidentKey(a1, t1, i1) == IncidentKey(a2, t2, i2) {
      var i1, i2 :| IncidentKey(a1, t1, i1) == IncidentKey(a2, t2, i2);
      var whole := h1 + i1;
      assert whole == h2 + i2;
      assert h1 == whole[..|h1|] && h2 == whole[..|h2|];
      assert |h1| <= |h2| ==> h1 == h2[..|h1|];
      assert |h2| <= |h1| ==> h2 == h1[..|h2|];
    }
    if h1 <= h2 {
      var rest := h2[|h1|..];
      assert h1 + (rest + "x") == h2 + "x";
      assert IncidentKey(a1, t1, rest + "x") == IncidentKey(a2, t2, "x");
    }
    if h2 <= h1 {
      var rest := h1[|h2|..];
      assert h2 + (rest + "x") == h1 + "x";
      assert IncidentKey(a1, t1, "x") == IncidentKey(a2, t2, rest + "x");
    }
  }

  /** Agents without a colon never meet each other, and two tools of one agent can meet exactly when the name
      of one and a colon begin the name of the other and a colon. */
  lemma SharedByToolOnly(a1: string, t1: string, a2: string, t2: string)
    requires ColonFree(a1) && ColonFree(a2)
    ensures KeyHead(a1, t1) <= KeyHead(a2, t2) <==> a1 == a2 && t1 + ":" <= t2 + ":"
  {
    var p := "incident:";
    assert KeyHead(a1, t1) == p + (a1 + ":" + (t1 + ":")) && KeyHead(a2, t2) == p + (a2 + ":" + (t2 + ":"));
    var h1, h2 := KeyHead(a1, t1), KeyHead(a2, t2);
    hide KeyHead;
    if h1 <= h2 {
      var rest := h2[|h1|..];
      assert h2 == h1 + rest;
      assert h2 == p + (a1 + ":" + (t1 + ":" + rest));
      assert h2[|p|..] == a1 + ":" + (t1 + ":" + rest) && h2[|p|..] == a2 + ":" + (t2 + ":");
      FirstColon(a1, t1 + ":" + rest, a2, t2 + ":");
      assert t2 + ":" == t1 + ":" + rest;
    }
    if a1 == a2 && t1 + ":" <= t2 + ":" {
      var rest := (t2 + ":")[|t1| + 1..];
      assert t2 + ":" == t1 + ":" + rest;
      assert h2 == h1 + rest;
    }
  }

  lemma FirstColon(x1: string, y1: string, x2: string, y2: string)
    requires ColonFree(x1) && ColonFree(x2)
    requires x1 + ":" + y1 == x2 + ":" + y2
    ensures x1 == x2 && y1 == y2
  {
    var l, r := x1 + ":" + y1, x2 + ":" + y2;
    assert l[|x1|] == ':' && r[|x2|] == ':';
    assert forall i | 0 <= i < |x1| :: l[i] == x1[i] && x1[i] != ':';
    assert forall i | 0 <= i < |x2| :: r[i] == x2[i] && x2[i] != ':';
    assert |x1| == |x2|;
    assert x1 == l[..|x1|] && x2 == r[..|x2|];
    assert y1 == l[|x1| + 1..] && y2 == r[|x2| + 1..];
  }

  /** Pairs that do meet. */
  lemma IncidentKeyCollision()
    ensures IncidentKey("code", "a:b", "c") == IncidentKey("code", "a", "b:c")
  {
  }
}
