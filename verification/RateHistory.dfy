/** The packet rate limiter against a ledger that forgets nothing. */
module RateHistory {
  import opened RateKeys
  import opened RateLimit

  // -------------------------------------------------------------- the ledger

  /** Every attempt and strike, and the latest expiry ever applied, since a key's session was last cleared. */
  datatype Ledger = Ledger(
    attempts: map<Key, seq<Time>>, strikes: map<Key, seq<Time>>,
    cooldowns: map<Key, Time>, blacklists: map<Key, Time>)

  const NEW_LEDGER := Ledger(map[], map[], map[], map[])

  /** The timestamps less than `window` old. */
  function Recent(ts: seq<Time>, now: Time, window: Time): seq<Time> {
    if |ts| == 0 then []
    else (if now - ts[0] < window then [ts[0]] else []) + Recent(ts[1..], now, window)
  }

  /** The whole milliseconds left on the first of `keys` that has any. */
  function FirstActive(table: map<Key, Time>, keys: seq<Key>, now: Time): int {
    if |keys| == 0 then 0
    else if keys[0] in table && Remaining(table[keys[0]], now) > 0 then Remaining(table[keys[0]], now)
    else FirstActive(table, keys[1..], now)
  }

  function Latest(table: map<Key, Time>, k: Key, expiry: Time): map<Key, Time> {
    table[k := if k in table && table[k] > expiry then table[k] else expiry]
  }

  /** The ledger knows of the key: an attempt, a strike, a cooldown or a blacklisting since the
      key was last forgotten. */
  predicate Recorded(h: Ledger, k: Key) {
    if k.OrderKey? then k in h.attempts || k in h.strikes || k in h.cooldowns else k in h.blacklists
  }

  /** What clearing a session forgets: the session's keys, and the twins of those it has a record of. */
  predicate Forgotten(h: Ledger, sid: nat, k: Key) {
    Mine(k, sid) || (Twin(k).Some? && Mine(Twin(k).value, sid) && Recorded(h, Twin(k).value))
  }

  function Without<V>(m: map<Key, V>, h: Ledger, sid: nat): map<Key, V> {
    map k | k in m && !Forgotten(h, sid, k) :: m[k]
  }

  function Forget(h: Ledger, sid: nat): Ledger {
    Ledger(Without(h.attempts, h, sid), Without(h.strikes, h, sid),
           Without(h.cooldowns, h, sid), Without(h.blacklists, h, sid))
  }

  function NoteAttempt(h: Ledger, order: nat, id: Identity, rule: Rule, now: Time): (Ledger, Reply) {
    if !Bucketed(id, rule) then (h, Accepted)
    else
      var k := BucketKey(order, id, rule);
      var recent := Recent(Get(h.attempts, k), now, rule.window * MS) + [now];
      (h.(attempts := h.attempts[k := Get(h.attempts, k) + [now]]),
       if |recent| > rule.max then Limited(Remaining(recent[0] + rule.window * MS, now), |recent|) else Accepted)
  }

  function NotePacket(h: Ledger, order: nat, id: Identity, rule: Rule, now: Time): (Ledger, Reply) {
    if !rule.enabled then (h, Accepted)
    else
      var banned := FirstActive(h.blacklists, KeysOf(AnyOrder, id, SCOPES), now);
      if banned > 0 then (h, Refused(BlacklistActive, banned))
      else
        var cooling := FirstActive(h.cooldowns, KeysOf(PerOrder(order), id, SCOPES), now);
        if cooling > 0 then (h, Refused(CooldownActive, cooling)) else NoteAttempt(h, order, id, rule, now)
  }

  /** A session's key that is no number is noted, but throws the first time. */
  function Unless<V>(m: map<Key, V>, k: Key, reply: Reply): Reply {
    if Unreadable(k) && k !in m then Threw else reply
  }

  function Note(h: Ledger, e: Event, now: Time): (Ledger, Reply) {
    match e
    case Packet(order, id, rule) => NotePacket(h, order, id, rule, now)
    case Cooldown(order, scope, identity, duration) =>
      if identity == "" || duration <= 0 then (h, Done)
      else
        var k := OrderKey(order, scope, identity);
        (h.(cooldowns := Latest(h.cooldowns, k, now + duration * MS)), Unless(h.cooldowns, k, Done))
    case Blacklist(scope, identity, duration) =>
      if identity == "" || duration <= 0 then (h, Done)
      else
        var k := IdentityKey(scope, identity);
        (h.(blacklists := Latest(h.blacklists, k, now + duration * MS)), Unless(h.blacklists, k, Done))
    case Strike(order, scope, identity, window) =>
      if identity == "" || window <= 0 then (h, Struck(0))
      else
        var k := OrderKey(order, scope, identity);
        (h.(strikes := h.strikes[k := Get(h.strikes, k) + [now]]),
         Unless(h.strikes, k, Struck(|Recent(Get(h.strikes, k), now, window * MS)| + 1)))
    case Clear(sid) => (if sid == 0 then h else Forget(h, sid), Done)
  }

  // ------------------------------------------------------------------- runs

  /** What a server's rules fix for each key: the limit and the windows, in milliseconds. */
  datatype Rules = Rules(max: Key -> nat, window: Key -> int, strike: Key -> int)

  /** Session ids are 16-bit, and rules do not change under a key. */
  predicate Legal(e: Event, rules: Rules) {
    match e
    case Packet(order, id, rule) =>
      && id.sid < 0x1_0000
      && var k := BucketKey(order, id, rule);
         (rule.enabled && Bucketed(id, rule) ==> rule.max == rules.max(k) && rule.window == rules.window(k))
    case Strike(order, scope, identity, window) => window == rules.strike(OrderKey(order, scope, identity))
    case _ => true
  }

  datatype Stamped = At(now: Time, event: Event)

  /** Clock readings do not decrease in the order the mutex was taken. */
  predicate Runs(es: seq<Stamped>, rules: Rules, clock: Time)
    decreases |es|
  {
    |es| == 0 || (clock <= es[0].now && Legal(es[0].event, rules) && Runs(es[1..], rules, es[0].now))
  }

  function Run(t: Limiter, es: seq<Stamped>): Limiter
    decreases |es|
  {
    if |es| == 0 then t else Run(Step(t, es[0].event, es[0].now).0, es[1..])
  }

  function Replies(t: Limiter, es: seq<Stamped>): (rs: seq<Reply>)
    ensures |rs| == |es|
    decreases |es|
  {
    if |es| == 0 then []
    else var (u, reply) := Step(t, es[0].event, es[0].now); [reply] + Replies(u, es[1..])
  }

  function LedgerReplies(h: Ledger, es: seq<Stamped>): (rs: seq<Reply>)
    ensures |rs| == |es|
    decreases |es|
  {
    if |es| == 0 then []
    else var (g, reply) := Note(h, es[0].event, es[0].now); [reply] + LedgerReplies(g, es[1..])
  }

  // ---------------------------------------------------------- deques are filters

  predicate Sorted(ts: seq<Time>) {
    forall i, j :: 0 <= i < j < |ts| ==> ts[i] <= ts[j]
  }

  /** Pruning the front of a sorted deque is filtering it. */
  lemma {:induction false} PruneIsRecent(ts: seq<Time>, now: Time, window: Time)
    requires Sorted(ts)
    ensures Prune(ts, now, window) == Recent(ts, now, window)
  {
    if |ts| > 0 {
      if now - ts[0] >= window {
        PruneIsRecent(ts[1..], now, window);
      } else {
        RecentOfFresh(ts, now, window);
      }
    }
  }

  lemma {:induction false} RecentOfFresh(ts: seq<Time>, now: Time, window: Time)
    requires forall i :: 0 <= i < |ts| ==> now - ts[i] < window
    ensures Recent(ts, now, window) == ts
  {
    if |ts| > 0 {
      RecentOfFresh(ts[1..], now, window);
    }
  }

  /** What an earlier filter dropped, a later one would have dropped too. */
  lemma {:induction false} RecentOfRecent(ts: seq<Time>, before: Time, now: Time, window: Time)
    requires before <= now
    ensures Recent(Recent(ts, before, window), now, window) == Recent(ts, now, window)
  {
    if |ts| > 0 {
      RecentOfRecent(ts[1..], before, now, window);
      var rest := Recent(ts[1..], before, window);
      if before - ts[0] < window {
        assert ([ts[0]] + rest)[1..] == rest;
      } else {
        assert Recent(ts, before, window) == rest;
      }
    }
  }

  lemma {:induction false} RecentAppend(ts: seq<Time>, t: Time, now: Time, window: Time)
    ensures Recent(ts + [t], now, window) == Recent(ts, now, window) + (if now - t < window then [t] else [])
  {
    if |ts| > 0 {
      assert (ts + [t])[1..] == ts[1..] + [t];
      RecentAppend(ts[1..], t, now, window);
    } else {
      assert [t][1..] == [];
    }
  }

  lemma {:induction false} RecentIsPart(ts: seq<Time>, now: Time, window: Time)
    requires Sorted(ts)
    ensures Sorted(Recent(ts, now, window))
    ensures forall x :: x in Recent(ts, now, window) ==> x in ts
  {
    if |ts| > 0 {
      RecentIsPart(ts[1..], now, window);
      var rest := Recent(ts[1..], now, window);
      forall i | 0 <= i < |rest| ensures ts[0] <= rest[i] {
        var x := rest[i];
        assert x in rest && x in ts[1..];
        var k :| 0 <= k < |ts[1..]| && ts[1..][k] == x;
        assert ts[1..][k] == ts[k + 1];
      }
    }
  }

  // ---------------------------------------------------------- the simulation

  /** The deque of a key holds the attempts that were recent at its last one. */
  ghost predicate DequeSim(t: map<string, seq<Time>>, h: map<Key, seq<Time>>, window: Key -> int, clock: Time) {
    && (forall k :: k in h ==> k.OrderKey? && |h[k]| > 0 && Sorted(h[k]) && h[k][|h[k]| - 1] <= clock && window(k) > 0)
    && (forall k: Key :: k.OrderKey? ==> (Text(k) in t <==> k in h))
    && (forall k :: k in h ==> t[Text(k)] == Recent(h[k], h[k][|h[k]| - 1], window(k) * MS))
  }

  lemma SameText(k: Key)
    ensures forall j: Key :: j.OrderKey? == k.OrderKey? && Text(j) == Text(k) ==> j == k
  {
    forall j: Key | j.OrderKey? == k.OrderKey? && Text(j) == Text(k) ensures j == k {
      SameShapeInjective(j, k);
    }
  }

  lemma LastOfSorted(ts: seq<Time>, now: Time)
    requires Sorted(ts) && (|ts| > 0 ==> ts[|ts| - 1] <= now)
    ensures Sorted(ts + [now])
  {
  }

  /** One push keeps the simulation, and the pruned deque is the filtered history. */
  lemma PushKeepsDeques(t: map<string, seq<Time>>, h: map<Key, seq<Time>>, window: Key -> int, clock: Time,
                        k: Key, now: Time)
    requires DequeSim(t, h, window, clock) && clock <= now && k.OrderKey? && window(k) > 0
    ensures Prune(Get(t, Text(k)), now, window(k) * MS) == Recent(Get(h, k), now, window(k) * MS)
    ensures DequeSim(t[Text(k) := Prune(Get(t, Text(k)), now, window(k) * MS) + [now]],
                     h[k := Get(h, k) + [now]], window, now)
  {
    hide Text, Recent, Prune;
    var w := window(k) * MS;
    var past := Get(h, k);
    if k in h {
      var last := past[|past| - 1];
      RecentIsPart(past, last, w);
      PruneIsRecent(Recent(past, last, w), now, w);
      RecentOfRecent(past, last, now, w);
    } else {
      PruneIsRecent([], now, w);
    }
    LastOfSorted(past, now);
    RecentAppend(past, now, now, w);
    SameText(k);
  }

  /** An entry is missing only if what the ledger has cannot refuse any more, and no packet asks for
      an unreadable one. */
  ghost predicate ExpirySim(t: map<string, Time>, h: map<Key, Time>, orders: bool, clock: Time) {
    && (forall k: Key :: k in h ==> k.OrderKey? == orders)
    && (forall k: Key :: k.OrderKey? == orders && Text(k) in t ==> k in h && t[Text(k)] == h[k])
    && (forall k: Key :: k in h && Text(k) !in t ==> h[k] < clock + MS && !Unreadable(k))
  }

  /** The keys of a sender are readable. */
  lemma {:induction false} KeysAreReadable(kind: Kind, id: Identity, scopes: seq<Scope>)
    requires id.sid < 0x1_0000
    ensures forall k :: k in KeysOf(kind, id, scopes) ==> !Unreadable(k)
  {
    hide Decimal, ParseStoul;
    if |scopes| > 0 {
      SessionOfDecimal(id.sid);
      KeysAreReadable(kind, id, scopes[1..]);
    }
  }

  lemma {:induction false} SweepIsFirstActive(t: map<string, Time>, h: map<Key, Time>, orders: bool, clock: Time,
                                              keys: seq<Key>, now: Time)
    requires ExpirySim(t, h, orders, clock) && clock <= now
    requires forall k :: k in keys ==> k.OrderKey? == orders && !Unreadable(k)
    ensures var (u, left) := Sweep(t, keys, now);
      left == FirstActive(h, keys, now) && ExpirySim(u, h, orders, now) && u.Keys <= t.Keys
  {
    hide Text, Unreadable;
    if |keys| > 0 {
      var key := Text(keys[0]);
      if key !in t {
        SweepIsFirstActive(t, h, orders, clock, keys[1..], now);
      } else if Remaining(t[key], now) == 0 {
        SameText(keys[0]);
        SweepIsFirstActive(t - {key}, h, orders, now, keys[1..], now);
      }
    }
  }

  lemma ExtendKeepsExpiry(t: map<string, Time>, h: map<Key, Time>, orders: bool, clock: Time,
                            k: Key, expiry: Time, now: Time)
    requires ExpirySim(t, h, orders, clock) && clock <= now && 0 <= now && now + MS <= expiry && k.OrderKey? == orders
    ensures ExpirySim(Extend(t, Text(k), expiry), Latest(h, k, expiry), orders, now)
  {
    hide Text, Unreadable;
    SameText(k);
  }

  // --------------------------------------------------------- the session index

  /** `k` has an entry in a table for keys of its kind. */
  predicate Holds(t: Limiter, k: Key) {
    if k.OrderKey? then Text(k) in t.windows || Text(k) in t.strikes || Text(k) in t.cooldowns
    else Text(k) in t.blacklists
  }

  ghost predicate OwnRecord(h: Ledger, sid: nat, text: string) {
    exists k: Key :: Mine(k, sid) && Recorded(h, k) && Text(k) == text
  }

  /** A session's list holds the texts of exactly the session's recorded keys. What is listed under
      zero is never looked at. */
  ghost predicate IndexSim(index: map<nat, seq<string>>, h: Ledger) {
    && (forall k: Key, sid: nat :: Mine(k, sid) && Recorded(h, k) ==> Text(k) in Get(index, sid))
    && (forall sid: nat, x: string :: sid != 0 && x in Get(index, sid) ==> OwnRecord(h, sid, x))
  }

  /** One key was recorded, and listed if it needs to be. */
  ghost predicate Touched(index: map<nat, seq<string>>, h: Ledger, after: map<nat, seq<string>>, g: Ledger, k: Key) {
    && (forall j: Key :: Recorded(g, j) <==> Recorded(h, j) || j == k)
    && ((k.scope.Session? && after == Indexed(index, SessionOf(k.identity), Text(k))) ||
        (after == index && (Recorded(h, k) || forall sid :: !Mine(k, sid))))
  }

  lemma TouchKeepsIndex(index: map<nat, seq<string>>, h: Ledger, after: map<nat, seq<string>>, g: Ledger, k: Key)
    requires IndexSim(index, h) && Touched(index, h, after, g, k)
    ensures IndexSim(after, g)
  {
    hide Text, Recorded, SessionOf;
    forall sid: nat, x: string | sid != 0 && x in Get(after, sid) ensures OwnRecord(g, sid, x) {
      if x in Get(index, sid) {
        assert OwnRecord(h, sid, x);
      } else {
        assert Mine(k, sid) && Recorded(g, k) && x == Text(k);
      }
    }
  }

  /** Clearing a session erases exactly the recorded keys that it forgets. */
  lemma ListedIsForgotten(index: map<nat, seq<string>>, h: Ledger, sid: nat, k: Key)
    requires IndexSim(index, h) && Recorded(h, k) && sid != 0
    ensures Text(k) in Get(index, sid) <==> Forgotten(h, sid, k)
  {
    hide Text, Recorded, Twin, SessionOf;
    if Text(k) in Get(index, sid) {
      assert OwnRecord(h, sid, Text(k));
      var j: Key :| Mine(j, sid) && Recorded(h, j) && Text(j) == Text(k);
      SharedText(j, k);
    }
    if Twin(k).Some? {
      SharedText(Twin(k).value, k);
    }
  }

  /** What is forgotten of one session leaves the lists of the others complete and sound. */
  lemma ForgetKeepsIndex(index: map<nat, seq<string>>, h: Ledger, sid: nat)
    requires IndexSim(index, h) && sid != 0
    ensures IndexSim(index - {sid}, Forget(h, sid))
  {
    hide Text, Mine, Recorded, Forgotten, OwnRecord;
    var after, g := index - {sid}, Forget(h, sid);
    RecordedAfterForget(h, sid);
    forall k: Key, s: nat | Mine(k, s) && Recorded(g, k) ensures Text(k) in Get(after, s) {
      MineIsForgotten(h, sid, k);
      assert s != sid;
    }
    forall s: nat, x: string | s != 0 && x in Get(after, s) ensures OwnRecord(g, s, x) {
      assert x in Get(index, s);
      OthersStay(h, sid, s, x);
    }
  }

  lemma RecordedAfterForget(h: Ledger, sid: nat)
    ensures forall k: Key :: Recorded(Forget(h, sid), k) <==> Recorded(h, k) && !Forgotten(h, sid, k)
  {
    hide Forgotten;
  }

  lemma MineIsForgotten(h: Ledger, sid: nat, k: Key)
    ensures Mine(k, sid) ==> Forgotten(h, sid, k)
  {
  }

  /** A session's own key is forgotten with that session only. */
  lemma OwnedForgotten(h: Ledger, sid: nat, s: nat, k: Key)
    requires Mine(k, s)
    ensures Forgotten(h, sid, k) <==> sid == s
  {
    hide Twin, SessionOf, Recorded;
    if Twin(k).Some? && Mine(Twin(k).value, sid) {
      TwinsOfOwned(Twin(k).value, k, s, sid);
    }
  }

  lemma OthersStay(h: Ledger, sid: nat, s: nat, x: string)
    requires s != sid && OwnRecord(h, s, x)
    ensures OwnRecord(Forget(h, sid), s, x)
  {
    hide Text, Mine, Recorded, Forget, Forgotten;
    var k: Key :| Mine(k, s) && Recorded(h, k) && Text(k) == x;
    RecordedAfterForget(h, sid);
    OwnedForgotten(h, sid, s, k);
  }
}
