/** What the token bucket guarantees over whole runs of acquisitions. */
module RateLimitRuns {
  import opened RateLimit

  datatype Limit = Limit(capacity: int, window: real)

  /** The configured limit of every key. */
  type Config = string -> Limit

  /** One acquisition: the clock reading and the keys asked for. */
  datatype Call = Call(now: real, keys: seq<string>)

  function ItemOf(cfg: Config, key: string): Item {
    Item(key, cfg(key).capacity, cfg(key).window)
  }

  function ItemsOf(cfg: Config, keys: seq<string>): (items: seq<Item>)
    ensures |items| == |keys|
    ensures forall i | 0 <= i < |keys| :: items[i] == ItemOf(cfg, keys[i])
  {
    seq(|keys|, i requires 0 <= i < |keys| => ItemOf(cfg, keys[i]))
  }

  /** Decisions of the store over a run of calls. */
  function Decisions(cfg: Config, buckets: Buckets, calls: seq<Call>): (ds: seq<bool>)
    ensures |ds| == |calls|
    decreases |calls|
  {
    if calls == [] then []
    else
      var (ok, after) := Acquire(buckets, ItemsOf(cfg, calls[0].keys), calls[0].now);
      [ok] + Decisions(cfg, after, calls[1..])
  }

  /** How many calls naming `key` with a clock reading in [s, t] were granted. */
  function Granted(cfg: Config, buckets: Buckets, calls: seq<Call>, key: string, s: real, t: real): nat
    decreases |calls|
  {
    if calls == [] then 0
    else
      var (ok, after) := Acquire(buckets, ItemsOf(cfg, calls[0].keys), calls[0].now);
      (if ok && key in calls[0].keys && s <= calls[0].now <= t then 1 else 0)
      + Granted(cfg, after, calls[1..], key, s, t)
  }

  predicate NonDecreasing(calls: seq<Call>) {
    forall i, j | 0 <= i < j < |calls| :: calls[i].now <= calls[j].now
  }

  predicate From(calls: seq<Call>, now: real) {
    forall i | 0 <= i < |calls| :: now <= calls[i].now
  }

  /** No entry is in debt or dated later than `now`. */
  predicate Sound(buckets: Buckets, now: real) {
    forall k | k in buckets :: buckets[k].tokens >= 0.0 && buckets[k].updatedAt <= now
  }

  // ----- arithmetic -----------------------------------------------------------------------

  lemma GainScales(item: Item, x: real, y: real)
    requires Usable(item) && x <= y
    ensures Gain(item, x) <= Gain(item, y)
  {
    assert Rate(item) > 0.0;
  }

  /** A key gains its capacity in a window. */
  lemma GainIs(item: Item, dt: real)
    requires Usable(item)
    ensures Gain(item, dt) == dt * (item.capacity as real / item.window)
  {
  }

  lemma GainNothing(item: Item)
    requires Usable(item)
    ensures Gain(item, 0.0) == 0.0
  {
  }

  lemma GainAdds(item: Item, sum: real, x: real, y: real)
    requires Usable(item) && sum == x + y
    ensures Gain(item, sum) == Gain(item, x) + Gain(item, y)
  {
  }

  /** Waiting in two steps refills exactly as much as waiting once. */
  lemma LevelAdvances(buckets: Buckets, item: Item, now: real, dt: real)
    requires Usable(item) && Sound(buckets, now) && dt >= 0.0
    ensures Level(buckets, item, now + dt)
         == Min(item.capacity as real, Level(buckets, item, now) + Gain(item, dt))
  {
    GainScales(item, 0.0, dt);
    GainNothing(item);
    hide Gain;
    if item.key in buckets {
      var gap := now - buckets[item.key].updatedAt;
      GainAdds(item, gap + dt, gap, dt);
    }
  }

  lemma LevelCapped(buckets: Buckets, item: Item, now: real)
    requires Usable(item)
    ensures Level(buckets, item, now) <= item.capacity as real
  {
    hide Gain;
  }

  lemma LevelNotNegative(buckets: Buckets, item: Item, now: real)
    requires Usable(item) && (forall k | k in buckets :: buckets[k].tokens >= 0.0)
    ensures Level(buckets, item, now) >= 0.0
  {
    hide Gain;
    if item.key in buckets {
      GainScales(item, 0.0, Max(0.0, now - buckets[item.key].updatedAt));
      GainNothing(item);
    }
  }

  lemma LevelJustWritten(buckets: Buckets, item: Item, now: real, tokens: real)
    requires Usable(item) && item.key in buckets && buckets[item.key] == Bucket(tokens, now)
    requires tokens <= item.capacity as real
    ensures Level(buckets, item, now) == tokens
  {
    GainNothing(item);
    hide Gain;
  }

  /** A level never refills faster than the rate, and keeps its order while waiting. */
  lemma LevelGrows(buckets: Buckets, after: Buckets, item: Item, now: real, dt: real)
    requires Usable(item) && Sound(buckets, now) && Sound(after, now) && dt >= 0.0
    requires Level(after, item, now) <= Level(buckets, item, now)
    ensures Level(buckets, item, now + dt) <= Level(buckets, item, now) + Gain(item, dt)
    ensures Level(after, item, now + dt) <= Level(buckets, item, now + dt)
  {
    LevelAdvances(buckets, item, now, dt);
    LevelAdvances(after, item, now, dt);
    hide Gain;
    hide Level;
  }

  lemma CallSound(cfg: Config, buckets: Buckets, call: Call)
    requires Sound(buckets, call.now)
    ensures var (ok, after) := Acquire(buckets, ItemsOf(cfg, call.keys), call.now);
            && Sound(after, call.now)
            && (ok ==> forall k | k in call.keys ::
                         Usable(ItemOf(cfg, k)) && Level(buckets, ItemOf(cfg, k), call.now) >= 1.0)
  {
    hide Level;
    hide Gain;
    var items := ItemsOf(cfg, call.keys);
    if Grants(buckets, items, call.now) {
      forall k | k in call.keys ensures Usable(ItemOf(cfg, k)) && Level(buckets, ItemOf(cfg, k), call.now) >= 1.0 {
        var i :| 0 <= i < |call.keys| && call.keys[i] == k;
        assert items[i] == ItemOf(cfg, k);
      }
      TakenLevel(cfg, buckets, call.keys, call.now);
    }
  }

  /** What one call does to the level of one configured key, read at the time of the call. */
  lemma CallLevel(cfg: Config, buckets: Buckets, call: Call, key: string)
    requires Sound(buckets, call.now) && Usable(ItemOf(cfg, key))
    ensures var (ok, after) := Acquire(buckets, ItemsOf(cfg, call.keys), call.now);
            && Sound(after, call.now)
            && Level(after, ItemOf(cfg, key), call.now)
               == Level(buckets, ItemOf(cfg, key), call.now) - (if ok && key in call.keys then 1.0 else 0.0)
  {
    hide Level;
    hide Gain;
    hide Taken;
    CallSound(cfg, buckets, call);
    var items, item := ItemsOf(cfg, call.keys), ItemOf(cfg, key);
    if Grants(buckets, items, call.now) {
      var after := Taken(buckets, items, call.now);
      TakenLevel(cfg, buckets, call.keys, call.now);
      if key in call.keys {
        LevelCapped(buckets, item, call.now);
        LevelJustWritten(after, item, call.now, Level(buckets, item, call.now) - 1.0);
      } else {
        LevelSame(buckets, after, item, call.now);
      }
    }
  }

  lemma LevelSame(buckets: Buckets, after: Buckets, item: Item, now: real)
    requires Usable(item)
    requires item.key in buckets <==> item.key in after
    requires item.key in buckets ==> after[item.key] == buckets[item.key]
    ensures Level(after, item, now) == Level(buckets, item, now)
  {
    hide Gain;
  }

  /** Naming a key twice in one call still takes one token: every entry is computed from the
      buckets before the call. */
  lemma {:induction false} TakenLevel(cfg: Config, buckets: Buckets, keys: seq<string>, now: real)
    requires forall i | 0 <= i < |keys| :: Usable(ItemOf(cfg, keys[i]))
    ensures var after := Taken(buckets, ItemsOf(cfg, keys), now);
            forall k :: if k in keys
                        then k in after && Usable(ItemOf(cfg, k))
                             && (k, after[k]) == Spent(buckets, ItemOf(cfg, k), now)
                        else (k in after <==> k in buckets)
                             && (k in buckets ==> after[k] == buckets[k])
  {
    hide Level;
    if keys != [] {
      var front, last := keys[..|keys| - 1], keys[|keys| - 1];
      FrontAndLast(cfg, keys);
      TakenLevel(cfg, buckets, front, now);
      TakenLast(buckets, ItemsOf(cfg, front), ItemOf(cfg, last), now);
    }
  }

  lemma FrontAndLast(cfg: Config, keys: seq<string>)
    requires keys != []
    ensures var front, last := keys[..|keys| - 1], keys[|keys| - 1];
            && keys == front + [last]
            && ItemsOf(cfg, keys) == ItemsOf(cfg, front) + [ItemOf(cfg, last)]
            && (forall k :: k in keys <==> k in front || k == last)
            && forall i | 0 <= i < |front| :: front[i] == keys[i]
  {
    var front, last := keys[..|keys| - 1], keys[|keys| - 1];
    assert keys == front + [last];
  }

  lemma TakenLast(buckets: Buckets, front: seq<Item>, last: Item, now: real)
    requires forall i | 0 <= i < |front| :: Usable(front[i])
    requires Usable(last)
    ensures Taken(buckets, front + [last], now)
         == Taken(buckets, front, now)[last.key := Spent(buckets, last, now).1]
  {
    hide Level;
    assert (front + [last])[..|front|] == front;
  }

  // ----- the rate bound -------------------------------------------------------------------

  /** The most grants a key can still collect in [s, t] when its buckets stand as they do `now`. */
  function Budget(buckets: Buckets, item: Item, now: real, s: real, t: real): real
    requires Usable(item)
  {
    var start := Max(now, s);
    if start <= t then Level(buckets, item, start) + Gain(item, t - start) else 0.0
  }

  lemma BudgetNotNegative(buckets: Buckets, item: Item, now: real, s: real, t: real)
    requires Usable(item) && Sound(buckets, now)
    ensures Budget(buckets, item, now, s, t) >= 0.0
  {
    var start := Max(now, s);
    LevelNotNegative(buckets, item, start);
    hide Gain;
    hide Level;
    if start <= t {
      GainScales(item, 0.0, t - start);
      GainNothing(item);
    }
  }

  /** A call at `c` spends one unit of the budget if it is granted inside the window. */
  lemma BudgetStep(buckets: Buckets, after: Buckets, item: Item, now: real, c: real, spent: real, s: real, t: real)
    requires Usable(item) && Sound(buckets, now) && Sound(after, c) && now <= c
    requires Level(after, item, c) == Level(buckets, item, c) - spent
    requires spent == 0.0 || spent == 1.0
    ensures Budget(after, item, c, s, t) + (if s <= c <= t then spent else 0.0)
         <= Budget(buckets, item, now, s, t)
  {
    BudgetNotNegative(buckets, item, now, s, t);
    assert Sound(buckets, c);
    hide Gain;
    hide Level;
    if c < s {
      LevelGrows(buckets, after, item, c, s - c);
      assert c + (s - c) == s;
    } else if c <= t {
      var start := Max(now, s);
      LevelGrows(buckets, buckets, item, start, c - start);
      GainAdds(item, t - start, c - start, t - c);
    }
  }

  lemma {:induction false} GrantedFrom(cfg: Config, buckets: Buckets, calls: seq<Call>, key: string,
                                       now: real, s: real, t: real)
    requires Usable(ItemOf(cfg, key)) && Sound(buckets, now) && NonDecreasing(calls) && From(calls, now)
    ensures Granted(cfg, buckets, calls, key, s, t) as real <= Budget(buckets, ItemOf(cfg, key), now, s, t)
    decreases |calls|
  {
    hide Level;
    hide Budget;
    hide Taken;
    var item := ItemOf(cfg, key);
    if calls == [] {
      BudgetNotNegative(buckets, item, now, s, t);
    } else {
      var call := calls[0];
      CallLevel(cfg, buckets, call, key);
      var (ok, after) := Acquire(buckets, ItemsOf(cfg, call.keys), call.now);
      GrantedFrom(cfg, after, calls[1..], key, call.now, s, t);
      BudgetStep(buckets, after, item, now, call.now, if ok && key in call.keys then 1.0 else 0.0, s, t);
    }
  }

  lemma GrantedWithinGain(cfg: Config, calls: seq<Call>, key: string, s: real, t: real)
    requires Usable(ItemOf(cfg, key)) && NonDecreasing(calls) && s <= t
    ensures Granted(cfg, map[], calls, key, s, t) as real
         <= cfg(key).capacity as real + Gain(ItemOf(cfg, key), t - s)
  {
    hide Granted;
    hide Gain;
    hide Level;
    var item := ItemOf(cfg, key);
    var now := if calls != [] && calls[0].now < s then calls[0].now else s;
    GrantedFrom(cfg, map[], calls, key, now, s, t);
    LevelCapped(map[], item, s);
  }

  /** In every run from a fresh store with a clock that never goes back, a key is granted at most
      its capacity plus one refill of the window [s, t], for every window. */
  lemma RateBound(cfg: Config, calls: seq<Call>, key: string, s: real, t: real)
    requires cfg(key).capacity >= 1 && cfg(key).window > 0.0 && NonDecreasing(calls) && s <= t
    ensures Granted(cfg, map[], calls, key, s, t) as real
         <= cfg(key).capacity as real + (t - s) * (cfg(key).capacity as real / cfg(key).window)
  {
    hide Granted;
    hide Gain;
    hide NonDecreasing;
    GainIs(ItemOf(cfg, key), t - s);
    GrantedWithinGain(cfg, calls, key, s, t);
  }

  /** One request as the limiter sees it. */
  datatype Request = Request(agent: string, tool: string, incident: string, now: real)

  function LimiterConfig(limits: Limits): Config {
    key => if |key| > 0 && key[0] == 'i' then Limit(limits.perToolIncident, limits.window)
           else Limit(limits.perAgent, limits.window)
  }

  function CallsOf(requests: seq<Request>): (calls: seq<Call>)
    ensures |calls| == |requests|
    ensures forall i | 0 <= i < |requests| ::
              calls[i] == Call(requests[i].now, [IncidentKey(requests[i].agent, requests[i].tool, requests[i].incident),
                                                 AgentKey(requests[i].agent)])
  {
    seq(|requests|, i requires 0 <= i < |requests| =>
      Call(requests[i].now, [IncidentKey(requests[i].agent, requests[i].tool, requests[i].incident),
                             AgentKey(requests[i].agent)]))
  }

  /** The limiter draws on the store exactly as the run of two-key calls does. */
  lemma LimiterCall(limits: Limits, buckets: Buckets, q: Request)
    ensures var (d, after) := Allow(limits, buckets, q.agent, q.tool, q.incident, q.now, false);
            (d.allowed, after) == Acquire(buckets, ItemsOf(LimiterConfig(limits), CallsOf([q])[0].keys), q.now)
  {
    assert KeysOf(limits, q.agent, q.tool, q.incident)
        == ItemsOf(LimiterConfig(limits), CallsOf([q])[0].keys);
  }

  /** Requests the limiter let through on tokens, with those matching the filter counted. */
  function LetThrough(limits: Limits, buckets: Buckets, requests: seq<Request>, key: string,
                      s: real, t: real): nat
    decreases |requests|
  {
    if requests == [] then 0
    else
      var q := requests[0];
      var (d, after) := Allow(limits, buckets, q.agent, q.tool, q.incident, q.now, false);
      (if d.allowed && key in [IncidentKey(q.agent, q.tool, q.incident), AgentKey(q.agent)] && s <= q.now <= t
       then 1 else 0)
      + LetThrough(limits, after, requests[1..], key, s, t)
  }

  lemma {:induction false} LetThroughIsGranted(limits: Limits, buckets: Buckets, requests: seq<Request>,
                                               key: string, s: real, t: real)
    ensures LetThrough(limits, buckets, requests, key, s, t)
         == Granted(LimiterConfig(limits), buckets, CallsOf(requests), key, s, t)
    decreases |requests|
  {
    if requests != [] {
      LimiterCall(limits, buckets, requests[0]);
      assert CallsOf(requests)[0] == CallsOf([requests[0]])[0];
      assert CallsOf(requests)[1..] == CallsOf(requests[1..]);
      var q := requests[0];
      var (d, after) := Allow(limits, buckets, q.agent, q.tool, q.incident, q.now, false);
      LetThroughIsGranted(limits, after, requests[1..], key, s, t);
    }
  }

  /** Both caps hold at once over every window: the calls let through for one agent, tool and
      incident stay under the per-incident line, and those for one agent under its global line. */
  lemma LimiterBound(limits: Limits, requests: seq<Request>, agent: string, tool: string, incident: string,
                     s: real, t: real)
    requires limits.perToolIncident >= 1 && limits.perAgent >= 1 && limits.window > 0.0 && s <= t
    requires NonDecreasing(CallsOf(requests))
    ensures LetThrough(limits, map[], requests, IncidentKey(agent, tool, incident), s, t) as real
         <= limits.perToolIncident as real + (t - s) * (limits.perToolIncident as real / limits.window)
    ensures LetThrough(limits, map[], requests, AgentKey(agent), s, t) as real
         <= limits.perAgent as real + (t - s) * (limits.perAgent as real / limits.window)
  {
    hide Granted;
    hide LetThrough;
    hide Gain;
    var cfg := LimiterConfig(limits);
    var ik, ak := IncidentKey(agent, tool, incident), AgentKey(agent);
    assert ik[0] == 'i' && ak[0] == 'a';
    RateBound(cfg, CallsOf(requests), ik, s, t);
    RateBound(cfg, CallsOf(requests), ak, s, t);
    LetThroughIsGranted(limits, map[], requests, ik, s, t);
    LetThroughIsGranted(limits, map[], requests, ak, s, t);
  }

  // ----- lazy refill equals eager refill --------------------------------------------------

  datatype Event = Tick(dt: real) | Ask(keys: seq<string>)

  predicate Forward(events: seq<Event>) {
    forall i | 0 <= i < |events| :: events[i].Tick? ==> events[i].dt >= 0.0
  }

  /** Tokens of a key in the eager bucket; a key never charged is full. */
  function EagerLevel(cfg: Config, levels: map<string, real>, key: string): real {
    if key in levels then levels[key] else cfg(key).capacity as real
  }

  /** The eager bucket: it refills every charged key on every tick, and charges on a grant. */
  function EagerStep(cfg: Config, levels: map<string, real>, e: Event): (r: (bool, map<string, real>)) {
    match e
    case Tick(dt) =>
      (false, map k | k in levels ::
         if cfg(k).capacity >= 1 && cfg(k).window > 0.0 then
           Min(cfg(k).capacity as real, levels[k] + dt * (cfg(k).capacity as real / cfg(k).window))
         else levels[k])
    case Ask(keys) =>
      if forall k | k in keys :: cfg(k).capacity >= 1 && cfg(k).window > 0.0 && EagerLevel(cfg, levels, k) >= 1.0 then
        (true, map k | k in levels.Keys + (set k | k in keys) ::
           EagerLevel(cfg, levels, k) - (if k in keys then 1.0 else 0.0))
      else (false, levels)
  }

  function LazyStep(cfg: Config, buckets: Buckets, now: real, e: Event): (r: (bool, Buckets, real)) {
    match e
    case Tick(dt) => (false, buckets, now + dt)
    case Ask(keys) => var (ok, after) := Acquire(buckets, ItemsOf(cfg, keys), now); (ok, after, now)
  }

  function EagerRun(cfg: Config, levels: map<string, real>, events: seq<Event>): seq<bool>
    decreases |events|
  {
    if events == [] then []
    else
      var (ok, levels') := EagerStep(cfg, levels, events[0]);
      [ok] + EagerRun(cfg, levels', events[1..])
  }

  function LazyRun(cfg: Config, buckets: Buckets, now: real, events: seq<Event>): seq<bool>
    decreases |events|
  {
    if events == [] then []
    else
      var (ok, buckets', now') := LazyStep(cfg, buckets, now, events[0]);
      [ok] + LazyRun(cfg, buckets', now', events[1..])
  }

  ghost predicate Simulates(cfg: Config, buckets: Buckets, now: real, levels: map<string, real>) {
    && Sound(buckets, now)
    && forall k | Usable(ItemOf(cfg, k)) :: Level(buckets, ItemOf(cfg, k), now) == EagerLevel(cfg, levels, k)
  }

  lemma TickSimulates(cfg: Config, buckets: Buckets, now: real, levels: map<string, real>, dt: real)
    requires Simulates(cfg, buckets, now, levels) && dt >= 0.0
    ensures Simulates(cfg, buckets, now + dt, EagerStep(cfg, levels, Tick(dt)).1)
  {
    hide Level;
    hide Gain;
    var levels' := EagerStep(cfg, levels, Tick(dt)).1;
    forall k | Usable(ItemOf(cfg, k))
      ensures Level(buckets, ItemOf(cfg, k), now + dt) == EagerLevel(cfg, levels', k)
    {
      LevelAdvances(buckets, ItemOf(cfg, k), now, dt);
      GainIs(ItemOf(cfg, k), dt);
      GainScales(ItemOf(cfg, k), 0.0, dt);
      GainNothing(ItemOf(cfg, k));
    }
  }

  lemma AskDecidesAlike(cfg: Config, buckets: Buckets, now: real, levels: map<string, real>, keys: seq<string>)
    requires Simulates(cfg, buckets, now, levels)
    ensures Grants(buckets, ItemsOf(cfg, keys), now)
        <==> forall k | k in keys :: Usable(ItemOf(cfg, k)) && EagerLevel(cfg, levels, k) >= 1.0
  {
    hide Level;
    hide EagerLevel;
    var items := ItemsOf(cfg, keys);
    if Grants(buckets, items, now) {
      forall k | k in keys ensures Usable(ItemOf(cfg, k)) && EagerLevel(cfg, levels, k) >= 1.0 {
        var i :| 0 <= i < |keys| && keys[i] == k;
        assert items[i] == ItemOf(cfg, k);
      }
    } else {
      var i :| 0 <= i < |items| && !(Usable(items[i]) && Level(buckets, items[i], now) >= 1.0);
      assert keys[i] in keys;
    }
  }

  lemma AskSimulates(cfg: Config, buckets: Buckets, now: real, levels: map<string, real>, keys: seq<string>)
    requires Simulates(cfg, buckets, now, levels)
    ensures var (ok, after) := Acquire(buckets, ItemsOf(cfg, keys), now);
            var (ok', levels') := EagerStep(cfg, levels, Ask(keys));
            ok == ok' && Simulates(cfg, after, now, levels')
  {
    hide Level;
    hide Gain;
    hide Taken;
    AskDecidesAlike(cfg, buckets, now, levels, keys);
    var (ok, after) := Acquire(buckets, ItemsOf(cfg, keys), now);
    var levels' := EagerStep(cfg, levels, Ask(keys)).1;
    forall k | ok && Usable(ItemOf(cfg, k))
      ensures Level(after, ItemOf(cfg, k), now) == EagerLevel(cfg, levels', k)
    {
      CallLevel(cfg, buckets, Call(now, keys), k);
    }
    CallSound(cfg, buckets, Call(now, keys));
  }

  lemma SimulationStep(cfg: Config, buckets: Buckets, now: real, levels: map<string, real>, e: Event)
    requires Simulates(cfg, buckets, now, levels) && (e.Tick? ==> e.dt >= 0.0)
    ensures var (ok, buckets', now') := LazyStep(cfg, buckets, now, e);
            var (ok', levels') := EagerStep(cfg, levels, e);
            ok == ok' && Simulates(cfg, buckets', now', levels')
  {
    hide Level;
    hide Acquire;
    hide Simulates;
    match e
    case Tick(dt) => TickSimulates(cfg, buckets, now, levels, dt);
    case Ask(keys) => AskSimulates(cfg, buckets, now, levels, keys);
  }

  lemma {:induction false} SimulationRun(cfg: Config, buckets: Buckets, now: real, levels: map<string, real>,
                                         events: seq<Event>)
    requires Simulates(cfg, buckets, now, levels) && Forward(events)
    ensures LazyRun(cfg, buckets, now, events) == EagerRun(cfg, levels, events)
    decreases |events|
  {
    if events != [] {
      SimulationStep(cfg, buckets, now, levels, events[0]);
      var (_, buckets', now') := LazyStep(cfg, buckets, now, events[0]);
      var (_, levels') := EagerStep(cfg, levels, events[0]);
      SimulationRun(cfg, buckets', now', levels', events[1..]);
    }
  }

  /** Refilling only when asked decides every call like a bucket refilled on every tick, however
      finely the time between calls is cut into ticks. */
  lemma LazyRefinesEager(cfg: Config, start: real, events: seq<Event>)
    requires Forward(events)
    ensures LazyRun(cfg, map[], start, events) == EagerRun(cfg, map[], events)
  {
    SimulationRun(cfg, map[], start, map[], events);
  }

  // ----- no starvation of paced callers ---------------------------------------------------

  /** The later call names no key of the earlier one before that key had a refill interval. */
  ghost predicate Spaced(cfg: Config, earlier: Call, later: Call) {
    forall k | k in earlier.keys && k in later.keys ::
      Usable(ItemOf(cfg, k)) && Gain(ItemOf(cfg, k), later.now - earlier.now) >= 1.0
  }

  /** Every stored key the call names has had a refill interval since it was last written. */
  ghost predicate Rested(cfg: Config, buckets: Buckets, call: Call) {
    forall k | k in call.keys && k in buckets ::
      && buckets[k].tokens >= 0.0
      && Usable(ItemOf(cfg, k))
      && Gain(ItemOf(cfg, k), call.now - buckets[k].updatedAt) >= 1.0
  }

  predicate Configured(cfg: Config, call: Call) {
    forall k | k in call.keys :: Usable(ItemOf(cfg, k))
  }

  lemma {:induction false} RestedRun(cfg: Config, buckets: Buckets, calls: seq<Call>)
    requires forall i | 0 <= i < |calls| :: Configured(cfg, calls[i]) && Rested(cfg, buckets, calls[i])
    requires forall i, j | 0 <= i < j < |calls| :: Spaced(cfg, calls[i], calls[j])
    ensures forall i | 0 <= i < |calls| :: Decisions(cfg, buckets, calls)[i]
    decreases |calls|
  {
    if calls != [] {
      hide Configured;
      hide Rested;
      hide Spaced;
      hide Taken;
      var call, rest := calls[0], calls[1..];
      RestedCall(cfg, buckets, call);
      var after := Taken(buckets, ItemsOf(cfg, call.keys), call.now);
      forall j | 0 <= j < |rest| ensures Rested(cfg, after, rest[j]) {
        RestedAfter(cfg, buckets, call, rest[j]);
      }
      RestedRun(cfg, after, rest);
    }
  }

  /** A rested call is granted. */
  lemma RestedCall(cfg: Config, buckets: Buckets, call: Call)
    requires Configured(cfg, call) && Rested(cfg, buckets, call)
    ensures Grants(buckets, ItemsOf(cfg, call.keys), call.now)
  {
    hide Level;
    hide Gain;
    var items := ItemsOf(cfg, call.keys);
    forall i | 0 <= i < |items| ensures Usable(items[i]) && Level(buckets, items[i], call.now) >= 1.0 {
      assert call.keys[i] in call.keys;
      RestedLevel(buckets, items[i], call.now);
    }
  }

  lemma RestedAfter(cfg: Config, buckets: Buckets, call: Call, later: Call)
    requires Configured(cfg, call) && Rested(cfg, buckets, later) && Spaced(cfg, call, later)
    requires Grants(buckets, ItemsOf(cfg, call.keys), call.now)
    ensures Rested(cfg, Taken(buckets, ItemsOf(cfg, call.keys), call.now), later)
  {
    hide Level;
    hide Gain;
    hide Taken;
    var items := ItemsOf(cfg, call.keys);
    TakenLevel(cfg, buckets, call.keys, call.now);
    forall k | k in call.keys ensures Level(buckets, ItemOf(cfg, k), call.now) >= 1.0 {
      var i :| 0 <= i < |call.keys| && call.keys[i] == k;
      assert items[i] == ItemOf(cfg, k);
    }
  }

  lemma RestedLevel(buckets: Buckets, item: Item, now: real)
    requires Usable(item)
    requires item.key in buckets ==>
               buckets[item.key].tokens >= 0.0 && Gain(item, now - buckets[item.key].updatedAt) >= 1.0
    ensures Level(buckets, item, now) >= 1.0
  {
    hide Gain;
    if item.key in buckets {
      var gap := now - buckets[item.key].updatedAt;
      GainScales(item, gap, Max(0.0, gap));
    }
  }

  /** Seconds a key needs to gain one token. */
  function Interval(item: Item): real
    requires Usable(item)
  {
    item.window / (item.capacity as real)
  }

  /** Two calls in order, at least one refill interval apart on every key they share. */
  ghost predicate Apart(cfg: Config, earlier: Call, later: Call) {
    forall k | k in earlier.keys && k in later.keys ::
      Usable(ItemOf(cfg, k)) && later.now - earlier.now >= Interval(ItemOf(cfg, k))
  }

  lemma ApartIsSpaced(cfg: Config, earlier: Call, later: Call)
    requires Apart(cfg, earlier, later)
    ensures Spaced(cfg, earlier, later)
  {
    hide Gain;
    hide Interval;
    forall k | k in earlier.keys && k in later.keys
      ensures Usable(ItemOf(cfg, k)) && Gain(ItemOf(cfg, k), later.now - earlier.now) >= 1.0
    {
      OneInterval(ItemOf(cfg, k), later.now - earlier.now);
    }
  }

  /** Callers that space their uses of each key by at least window / capacity are never refused. */
  lemma PacedNeverRefused(cfg: Config, calls: seq<Call>)
    requires forall i | 0 <= i < |calls| :: Configured(cfg, calls[i])
    requires forall i, j | 0 <= i < j < |calls| :: Apart(cfg, calls[i], calls[j])
    ensures forall i | 0 <= i < |calls| :: Decisions(cfg, map[], calls)[i]
  {
    forall i, j | 0 <= i < j < |calls| ensures Spaced(cfg, calls[i], calls[j]) {
      ApartIsSpaced(cfg, calls[i], calls[j]);
    }
    RestedRun(cfg, map[], calls);
  }

  lemma OneInterval(item: Item, gap: real)
    requires Usable(item) && gap >= Interval(item)
    ensures Gain(item, gap) >= 1.0
  {
    Cancel(item.window, item.capacity as real);
    GainScales(item, Interval(item), gap);
  }

  lemma Cancel(w: real, c: real)
    requires w > 0.0 && c > 0.0
    ensures (w / c) * (c / w) == 1.0
  {
    var x, y := w / c, c / w;
    assert x * c == w && y * w == c;
    assert (x * y) * w == x * (y * w);
    assert (x * y - 1.0) * w == (x * y) * w - w;
  }
}
