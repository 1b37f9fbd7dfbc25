/** The packet rate limiter as it runs: text keys, pruned deques and lazily erased tables. */
module RateLimit {
  import opened Options
  import opened RateKeys

  /** Nanoseconds of a steady clock, and the nanoseconds of a millisecond. */
  type Time = int
  const MS: Time := 1_000_000

  datatype Limiter = Limiter(
    windows: map<string, seq<Time>>, strikes: map<string, seq<Time>>,
    cooldowns: map<string, Time>, blacklists: map<string, Time>,
    index: map<nat, seq<string>>)

  const NEW_LIMITER := Limiter(map[], map[], map[], map[], map[])

  /** A rule after its resolvers ran; `window` is in milliseconds. */
  datatype Rule = Rule(enabled: bool, bucket: Scope, max: nat, window: int)

  datatype Event =
    | Packet(order: nat, id: Identity, rule: Rule)
    | Cooldown(order: nat, scope: Scope, identity: string, duration: int)
    | Blacklist(scope: Scope, identity: string, duration: int)
    | Strike(order: nat, scope: Scope, identity: string, window: int)
    | Clear(sid: nat)

  datatype Refusal = CooldownActive | BlacklistActive

  datatype Reply =
    | Accepted
    | Refused(why: Refusal, left: int)       // `left` milliseconds
    | Limited(retry: int, count: nat)
    | Struck(count: nat)
    | Done
    | Threw                                 // `stoul` did, on a session text that is no number

  function Get<K, V>(m: map<K, seq<V>>, k: K): seq<V> {
    if k in m then m[k] else []
  }

  /** Whole milliseconds from `now` to `expiry`, zero if it has passed. */
  function Remaining(expiry: Time, now: Time): (left: int)
    ensures left > 0 <==> now + MS <= expiry
    ensures left >= 0
  {
    if expiry <= now then 0 else (expiry - now) / MS
  }

  /** Drop timestamps off the front while they are `window` old. */
  function Prune(ts: seq<Time>, now: Time, window: Time): seq<Time> {
    if |ts| > 0 && now - ts[0] >= window then Prune(ts[1..], now, window) else ts
  }

  /** Look the keys up in order; expired entries are erased on the way, the first live one ends the search. */
  function Sweep(table: map<string, Time>, keys: seq<Key>, now: Time): (map<string, Time>, int) {
    if |keys| == 0 then (table, 0)
    else
      var key := Text(keys[0]);
      if key !in table then Sweep(table, keys[1..], now)
      else
        var left := Remaining(table[key], now);
        if left > 0 then (table, left) else Sweep(table - {key}, keys[1..], now)
  }

  function Extend(table: map<string, Time>, key: string, expiry: Time): map<string, Time> {
    var current := if key in table then table[key] else 0;
    table[key := if current < expiry then expiry else current]
  }

  function Indexed(index: map<nat, seq<string>>, sid: nat, key: string): map<nat, seq<string>> {
    index[sid := Get(index, sid) + [key]]
  }

  function IndexedIf(index: map<nat, seq<string>>, yes: bool, sid: nat, key: string): map<nat, seq<string>> {
    if yes then Indexed(index, sid, key) else index
  }

  /** A packet counts against a bucket if the rule limits and the bucket identity is known. */
  predicate Bucketed(id: Identity, rule: Rule) {
    rule.max > 0 && rule.window > 0 && IdentityValue(id, rule.bucket) != ""
  }

  function BucketKey(order: nat, id: Identity, rule: Rule): Key {
    OrderKey(order, rule.bucket, IdentityValue(id, rule.bucket))
  }

  /** Count an attempt in its window. */
  function Attempt(t: Limiter, order: nat, id: Identity, rule: Rule, now: Time): (Limiter, Reply) {
    if !Bucketed(id, rule) then (t, Accepted)
    else
      var key := Text(BucketKey(order, id, rule));
      var window := rule.window * MS;
      var q := Prune(Get(t.windows, key), now, window) + [now];
      (t.(windows := t.windows[key := q],
          index := IndexedIf(t.index, |q| == 1 && rule.bucket.Session? && id.sid != 0, id.sid, key)),
       if |q| > rule.max then Limited(Remaining(q[0] + window, now), |q|) else Accepted)
  }

  function ProcessPacket(t: Limiter, order: nat, id: Identity, rule: Rule, now: Time): (Limiter, Reply) {
    if !rule.enabled then (t, Accepted)
    else
      var (blacklists, banned) := Sweep(t.blacklists, KeysOf(AnyOrder, id, SCOPES), now);
      var t1 := t.(blacklists := blacklists);
      if banned > 0 then (t1, Refused(BlacklistActive, banned))
      else
        var (cooldowns, cooling) := Sweep(t1.cooldowns, KeysOf(PerOrder(order), id, SCOPES), now);
        var t2 := t1.(cooldowns := cooldowns);
        if cooling > 0 then (t2, Refused(CooldownActive, cooling)) else Attempt(t2, order, id, rule, now)
  }

  /** List a new session-scoped key under the session its identity text stands for; the tables
      have changed by then, also if reading the text throws. */
  function Listed(t: Limiter, isNew: bool, scope: Scope, identity: string, key: string, reply: Reply): (Limiter, Reply) {
    if !(isNew && scope.Session?) then (t, reply)
    else match ParseStoul(identity)
      case Some(n) => (t.(index := Indexed(t.index, n % 0x1_0000, key)), reply)
      case None => (t, Threw)
  }

  function ApplyCooldown(t: Limiter, order: nat, scope: Scope, identity: string, duration: int, now: Time)
    : (Limiter, Reply)
  {
    if identity == "" || duration <= 0 then (t, Done)
    else
      var key := Text(OrderKey(order, scope, identity));
      Listed(t.(cooldowns := Extend(t.cooldowns, key, now + duration * MS)), key !in t.cooldowns,
             scope, identity, key, Done)
  }

  function ApplyBlacklist(t: Limiter, scope: Scope, identity: string, duration: int, now: Time): (Limiter, Reply) {
    if identity == "" || duration <= 0 then (t, Done)
    else
      var key := Text(IdentityKey(scope, identity));
      Listed(t.(blacklists := Extend(t.blacklists, key, now + duration * MS)), key !in t.blacklists,
             scope, identity, key, Done)
  }

  function AddStrike(t: Limiter, order: nat, scope: Scope, identity: string, window: int, now: Time): (Limiter, Reply) {
    if identity == "" || window <= 0 then (t, Struck(0))
    else
      var key := Text(OrderKey(order, scope, identity));
      var q := Prune(Get(t.strikes, key), now, window * MS) + [now];
      Listed(t.(strikes := t.strikes[key := q]), |Get(t.strikes, key)| == 0, scope, identity, key, Struck(|q|))
  }

  function Elements<T>(s: seq<T>): set<T> {
    set x | x in s
  }

  function Erase(t: Limiter, keys: set<string>): Limiter {
    t.(windows := t.windows - keys, strikes := t.strikes - keys,
       cooldowns := t.cooldowns - keys, blacklists := t.blacklists - keys)
  }

  lemma EraseNothing(t: Limiter)
    ensures Erase(t, Elements([])) == t
  {
    assert Elements<string>([]) == {};
  }

  lemma EraseOne(t: Limiter, key: string)
    ensures Erase(t, {key}) == t.(windows := t.windows - {key}, strikes := t.strikes - {key},
                                  cooldowns := t.cooldowns - {key}, blacklists := t.blacklists - {key})
  {
  }

  lemma EraseMore(t: Limiter, keys: seq<string>, i: nat)
    requires i < |keys|
    ensures Erase(Erase(t, Elements(keys[..i])), {keys[i]}) == Erase(t, Elements(keys[..i + 1]))
  {
    var done, next := Elements(keys[..i]), Elements(keys[..i + 1]);
    assert next == done + {keys[i]};
    assert t.windows - done - {keys[i]} == t.windows - next;
    assert t.strikes - done - {keys[i]} == t.strikes - next;
    assert t.cooldowns - done - {keys[i]} == t.cooldowns - next;
    assert t.blacklists - done - {keys[i]} == t.blacklists - next;
  }

  function ClearSession(t: Limiter, sid: nat): Limiter {
    if sid == 0 || sid !in t.index then t
    else Erase(t, Elements(t.index[sid])).(index := t.index - {sid})
  }

  function Step(t: Limiter, e: Event, now: Time): (Limiter, Reply) {
    match e
    case Packet(order, id, rule) => ProcessPacket(t, order, id, rule, now)
    case Cooldown(order, scope, identity, duration) => ApplyCooldown(t, order, scope, identity, duration, now)
    case Blacklist(scope, identity, duration) => ApplyBlacklist(t, scope, identity, duration, now)
    case Strike(order, scope, identity, window) => AddStrike(t, order, scope, identity, window, now)
    case Clear(sid) => (ClearSession(t, sid), Done)
  }

  // ------------------------------------------------------- the server's tables

  /** The rate-limit tables of a server; every method runs under one mutex, and `now`
      is the reading of the clock taken for it. */
  class RateLimiter {
    var windows: map<string, seq<Time>>
    var strikes: map<string, seq<Time>>
    var cooldowns: map<string, Time>
    var blacklists: map<string, Time>
    var index: map<nat, seq<string>>

    ghost function View(): Limiter
      reads this
    {
      Limiter(windows, strikes, cooldowns, blacklists, index)
    }

    constructor ()
      ensures View() == NEW_LIMITER
    {
      windows, strikes, cooldowns, blacklists, index := map[], map[], map[], map[], map[];
    }

    static method PruneWindow(timestamps: seq<Time>, now: Time, window: Time) returns (kept: seq<Time>)
      ensures kept == Prune(timestamps, now, window)
    {
      kept := timestamps;
      while |kept| > 0 && now - kept[0] >= window
        invariant Prune(kept, now, window) == Prune(timestamps, now, window)
        decreases |kept|
      {
        kept := kept[1..];
      }
    }

    /** One pass of `try_reject` over the scopes. */
    static method TryReject(entries: map<string, Time>, kind: Kind, id: Identity, now: Time)
      returns (table: map<string, Time>, left: int)
      ensures (table, left) == Sweep(entries, KeysOf(kind, id, SCOPES), now)
    {
      hide Text, IdentityValue;
      table, left := entries, 0;
      var i := 0;
      while i < |SCOPES|
        invariant 0 <= i <= |SCOPES| && left == 0
        invariant Sweep(table, KeysOf(kind, id, SCOPES[i..]), now) == Sweep(entries, KeysOf(kind, id, SCOPES), now)
      {
        var value := IdentityValue(id, SCOPES[i]);
        ghost var rest := KeysOf(kind, id, SCOPES[i..]);
        assert SCOPES[i..][1..] == SCOPES[i + 1..];
        if value != "" {
          var key := Text(KeyFor(kind, SCOPES[i], value));
          assert rest[0] == KeyFor(kind, SCOPES[i], value) && rest[1..] == KeysOf(kind, id, SCOPES[i + 1..]);
          if key in table {
            var remaining := Remaining(table[key], now);
            if remaining > 0 {
              left := remaining;
              return;
            }
            table := table - {key};
          }
        } else {
          assert rest == KeysOf(kind, id, SCOPES[i + 1..]);
        }
        i := i + 1;
      }
    }

    method Remember(sid: nat, key: string)
      modifies `index
      ensures index == Indexed(old(index), sid, key)
    {
      index := index[sid := (if sid in index then index[sid] else []) + [key]];
    }

    /** `ShouldProcessPacket`: a reply other than Accepted tells the handler not to run. */
    method ShouldProcessPacket(order: nat, id: Identity, rule: Rule, now: Time) returns (reply: Reply)
      requires id.sid < 0x1_0000
      modifies this
      ensures (View(), reply) == ProcessPacket(old(View()), order, id, rule, now)
    {
      hide Sweep, KeysOf, Text, Prune, IdentityValue;
      if !rule.enabled {
        return Accepted;
      }
      var left: int;
      blacklists, left := TryReject(blacklists, AnyOrder, id, now);
      if left > 0 {
        return Refused(BlacklistActive, left);
      }
      cooldowns, left := TryReject(cooldowns, PerOrder(order), id, now);
      if left > 0 {
        return Refused(CooldownActive, left);
      }
      reply := Accepted;
      if rule.max > 0 && rule.window > 0 {
        var value := IdentityValue(id, rule.bucket);
        if value != "" {
          var key := Text(OrderKey(order, rule.bucket, value));
          var window := rule.window * MS;
          var timestamps := PruneWindow(if key in windows then windows[key] else [], now, window);
          timestamps := timestamps + [now];
          windows := windows[key := timestamps];
          if |timestamps| > rule.max {
            reply := Limited(Remaining(timestamps[0] + window, now), |timestamps|);
          }
          if |timestamps| == 1 && rule.bucket.Session? && id.sid != 0 {
            Remember(id.sid, key);
          }
        }
      }
    }

    /** List a session-scoped key, unless reading the session id out of its identity throws. */
    method RememberSession(identity: string, key: string) returns (threw: bool)
      modifies `index
      ensures threw == ParseStoul(identity).None?
      ensures index == if threw then old(index) else Indexed(old(index), ParseStoul(identity).value % 0x1_0000, key)
    {
      match ParseStoul(identity) {
        case Some(n) =>
          Remember(n % 0x1_0000, key);
          threw := false;
        case None =>
          threw := true;
      }
    }

    method ApplyPacketRateLimitCooldown(order: nat, scope: Scope, identity: string, duration: int, now: Time)
      returns (threw: bool)
      modifies this
      ensures (View(), if threw then Threw else Done) == ApplyCooldown(old(View()), order, scope, identity, duration, now)
    {
      hide Text, ParseStoul;
      threw := false;
      if identity == "" || duration <= 0 {
        return;
      }
      var key := Text(OrderKey(order, scope, identity));
      var expiry := now + duration * MS;
      var isNew := key !in cooldowns;
      var current := if isNew then 0 else cooldowns[key];
      if current < expiry {
        current := expiry;
      }
      cooldowns := cooldowns[key := current];
      if isNew && scope.Session? {
        threw := RememberSession(identity, key);
      }
    }

    method ApplyPacketRateLimitBlacklist(scope: Scope, identity: string, duration: int, now: Time) returns (threw: bool)
      modifies this
      ensures (View(), if threw then Threw else Done) == ApplyBlacklist(old(View()), scope, identity, duration, now)
    {
      hide Text, ParseStoul;
      threw := false;
      if identity == "" || duration <= 0 {
        return;
      }
      var key := Text(IdentityKey(scope, identity));
      var expiry := now + duration * MS;
      var isNew := key !in blacklists;
      var current := if isNew then 0 else blacklists[key];
      if current < expiry {
        current := expiry;
      }
      blacklists := blacklists[key := current];
      if isNew && scope.Session? {
        threw := RememberSession(identity, key);
      }
    }

    method AddPacketRateLimitStrike(order: nat, scope: Scope, identity: string, window: int, now: Time)
      returns (count: nat, threw: bool)
      modifies this
      ensures (View(), if threw then Threw else Struck(count)) == AddStrike(old(View()), order, scope, identity, window, now)
    {
      hide Text, Prune, ParseStoul;
      threw := false;
      if identity == "" || window <= 0 {
        return 0, false;
      }
      var key := Text(OrderKey(order, scope, identity));
      var timestamps := if key in strikes then strikes[key] else [];
      var wasEmpty := |timestamps| == 0;
      timestamps := PruneWindow(timestamps, now, window * MS);
      timestamps := timestamps + [now];
      strikes := strikes[key := timestamps];
      if wasEmpty && scope.Session? {
        threw := RememberSession(identity, key);
      }
      count := |timestamps|;
    }

    method ClearPacketRateLimitSessionState(sid: nat)
      modifies this
      ensures View() == ClearSession(old(View()), sid)
    {
      hide Elements, Erase;
      if sid == 0 || sid !in index {
        return;
      }
      EraseNothing(View());
      var keys := index[sid];
      var i := 0;
      while i < |keys|
        invariant 0 <= i <= |keys| && index == old(index)
        invariant View() == Erase(old(View()), Elements(keys[..i]))
      {
        EraseOne(View(), keys[i]);
        EraseMore(old(View()), keys, i);
        windows, strikes := windows - {keys[i]}, strikes - {keys[i]};
        cooldowns, blacklists := cooldowns - {keys[i]}, blacklists - {keys[i]};
        i := i + 1;
      }
      assert keys[..i] == keys;
      index := index - {sid};
    }
  }
}
