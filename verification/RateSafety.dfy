/** The rate limiter decides as its full history would, over every run. */
module RateSafety {
  import opened Options
  import opened RateKeys
  import opened RateLimit
  import opened RateHistory

  /** The tables give what the ledger knows, at a time. */
  ghost predicate Sim(t: Limiter, h: Ledger, rules: Rules, clock: Time) {
    && DequeSim(t.windows, h.attempts, rules.window, clock)
    && DequeSim(t.strikes, h.strikes, rules.strike, clock)
    && ExpirySim(t.cooldowns, h.cooldowns, true, clock)
    && ExpirySim(t.blacklists, h.blacklists, false, clock)
    && IndexSim(t.index, h)
    && 0 <= clock
  }

  lemma DequeWaits(t: map<string, seq<Time>>, h: map<Key, seq<Time>>, window: Key -> int, clock: Time, now: Time)
    requires DequeSim(t, h, window, clock) && clock <= now
    ensures DequeSim(t, h, window, now)
  {
    hide Text, Recent, Sorted;
  }

  lemma ExpiryWaits(t: map<string, Time>, h: map<Key, Time>, orders: bool, clock: Time, now: Time)
    requires ExpirySim(t, h, orders, clock) && clock <= now
    ensures ExpirySim(t, h, orders, now)
  {
    hide Text;
  }

  lemma SimWaits(t: Limiter, h: Ledger, rules: Rules, clock: Time, now: Time)
    requires Sim(t, h, rules, clock) && clock <= now
    ensures Sim(t, h, rules, now)
  {
    hide DequeSim, ExpirySim, IndexSim;
    DequeWaits(t.windows, h.attempts, rules.window, clock, now);
    DequeWaits(t.strikes, h.strikes, rules.strike, clock, now);
    ExpiryWaits(t.cooldowns, h.cooldowns, true, clock, now);
    ExpiryWaits(t.blacklists, h.blacklists, false, clock, now);
  }

  /** A held key is a recorded one. */
  lemma HeldIsRecorded(t: Limiter, h: Ledger, rules: Rules, now: Time, k: Key)
    requires Sim(t, h, rules, now) && Holds(t, k)
    ensures Recorded(h, k)
  {
    hide Text, IndexSim, Recent, Sorted;
  }

  /** Erasing expired entries disturbs nothing else. */
  lemma SweepKeepsSim(t: Limiter, h: Ledger, rules: Rules, now: Time, kind: Kind, id: Identity)
    requires Sim(t, h, rules, now) && id.sid < 0x1_0000
    ensures var orders := kind.PerOrder?;
      var (u, left) := Sweep(if orders then t.cooldowns else t.blacklists, KeysOf(kind, id, SCOPES), now);
      && left == FirstActive(if orders then h.cooldowns else h.blacklists, KeysOf(kind, id, SCOPES), now)
      && Sim(if orders then t.(cooldowns := u) else t.(blacklists := u), h, rules, now)
  {
    hide Sweep, FirstActive, KeysOf, DequeSim, ExpirySim, IndexSim, Unreadable;
    KeysAreReadable(kind, id, SCOPES);
    if kind.PerOrder? {
      SweepIsFirstActive(t.cooldowns, h.cooldowns, true, now, KeysOf(kind, id, SCOPES), now);
    } else {
      SweepIsFirstActive(t.blacklists, h.blacklists, false, now, KeysOf(kind, id, SCOPES), now);
    }
  }

  lemma LastIsRecent(ts: seq<Time>, now: Time, window: Time)
    requires |ts| > 0 && window > 0 && now == ts[|ts| - 1]
    ensures |Recent(ts, now, window)| > 0
  {
    RecentAppend(ts[..|ts| - 1], now, now, window);
    assert ts == ts[..|ts| - 1] + [now];
  }

  lemma HeldDeque(t: map<string, seq<Time>>, h: map<Key, seq<Time>>, window: Key -> int, clock: Time, k: Key)
    requires DequeSim(t, h, window, clock) && k.OrderKey?
    ensures |Get(t, Text(k))| == 0 <==> k !in h
  {
    hide Text, Recent, Sorted;
    if k in h {
      LastIsRecent(h[k], h[k][|h[k]| - 1], window(k) * MS);
    }
  }

  lemma NotOfSession(k: Key)
    ensures !k.scope.Session? || Unreadable(k) ==> forall sid :: !Mine(k, sid)
  {
  }

  lemma NothingToPrune(now: Time, window: Time)
    ensures Prune([], now, window) == []
  {
  }

  lemma AttemptTouches(t: Limiter, h: Ledger, rules: Rules, order: nat, id: Identity, rule: Rule, now: Time)
    requires DequeSim(t.windows, h.attempts, rules.window, now) && id.sid < 0x1_0000 && Bucketed(id, rule)
    ensures Touched(t.index, h, Attempt(t, order, id, rule, now).0.index, NoteAttempt(h, order, id, rule, now).0,
                    BucketKey(order, id, rule))
  {
    hide Text, Recent, Prune, Decimal, SessionOf, DequeSim;
    var k := BucketKey(order, id, rule);
    if rule.bucket.Session? {
      SessionOfDecimal(id.sid);
    }
    HeldDeque(t.windows, h.attempts, rules.window, now, k);
    NothingToPrune(now, rule.window * MS);
    NotOfSession(k);
  }

  lemma AttemptSim(t: Limiter, h: Ledger, rules: Rules, order: nat, id: Identity, rule: Rule, now: Time)
    requires Sim(t, h, rules, now) && id.sid < 0x1_0000 && Bucketed(id, rule)
    requires var k := BucketKey(order, id, rule); rule.max == rules.max(k) && rule.window == rules.window(k)
    ensures var (u, r) := Attempt(t, order, id, rule, now); var (g, s) := NoteAttempt(h, order, id, rule, now);
      r == s && Sim(u, g, rules, now)
  {
    hide Text, Prune, Recent, Decimal, IndexSim, DequeSim, ExpirySim, Touched;
    var k := BucketKey(order, id, rule);
    PushKeepsDeques(t.windows, h.attempts, rules.window, now, k, now);
    AttemptTouches(t, h, rules, order, id, rule, now);
    TouchKeepsIndex(t.index, h, Attempt(t, order, id, rule, now).0.index, NoteAttempt(h, order, id, rule, now).0, k);
  }

  lemma PacketSim(t: Limiter, h: Ledger, rules: Rules, order: nat, id: Identity, rule: Rule, now: Time)
    requires Sim(t, h, rules, now) && Legal(Packet(order, id, rule), rules)
    ensures var (u, r) := ProcessPacket(t, order, id, rule, now); var (g, s) := NotePacket(h, order, id, rule, now);
      r == s && Sim(u, g, rules, now)
  {
    hide Text, Sweep, FirstActive, KeysOf, Attempt, NoteAttempt, IdentityValue, IndexSim, DequeSim, ExpirySim;
    if rule.enabled {
      SweepKeepsSim(t, h, rules, now, AnyOrder, id);
      var (blacklists, banned) := Sweep(t.blacklists, KeysOf(AnyOrder, id, SCOPES), now);
      var t1 := t.(blacklists := blacklists);
      if banned <= 0 {
        SweepKeepsSim(t1, h, rules, now, PerOrder(order), id);
        var (cooldowns, cooling) := Sweep(t1.cooldowns, KeysOf(PerOrder(order), id, SCOPES), now);
        var t2 := t1.(cooldowns := cooldowns);
        if cooling <= 0 {
          if Bucketed(id, rule) {
            AttemptSim(t2, h, rules, order, id, rule, now);
          } else {
            Unbucketed(t2, h, order, id, rule, now);
          }
        }
      }
    }
  }

  lemma Unbucketed(t: Limiter, h: Ledger, order: nat, id: Identity, rule: Rule, now: Time)
    requires !Bucketed(id, rule)
    ensures Attempt(t, order, id, rule, now) == (t, Accepted) && NoteAttempt(h, order, id, rule, now) == (h, Accepted)
  {
  }

  /** A new key of a session is listed under the session its identity is read as, or the action throws. */
  lemma ListedUnder(t: Limiter, isNew: bool, k: Key, reply: Reply)
    ensures Listed(t, isNew, k.scope, k.identity, Text(k), reply) ==
            if !isNew || !k.scope.Session? then (t, reply)
            else if Unreadable(k) then (t, Threw)
            else (t.(index := Indexed(t.index, SessionOf(k.identity), Text(k))), reply)
    ensures Unreadable(k) ==> k.scope.Session?
  {
    hide ParseStoul, Text;
  }

  /** An action that records a key, and lists it if it is new, keeps the index. */
  lemma ActionKeepsIndex(index: map<nat, seq<string>>, h: Ledger, after: map<nat, seq<string>>, g: Ledger, k: Key, isNew: bool)
    requires IndexSim(index, h) && forall j :: Recorded(g, j) <==> Recorded(h, j) || j == k
    requires !isNew ==> Recorded(h, k)
    requires after == if isNew && k.scope.Session? && !Unreadable(k) then Indexed(index, SessionOf(k.identity), Text(k))
                      else index
    ensures IndexSim(after, g)
  {
    hide Text, IndexSim, Recorded;
    NotOfSession(k);
    TouchKeepsIndex(index, h, after, g, k);
  }

  lemma HeldExpiry(t: map<string, Time>, h: map<Key, Time>, orders: bool, clock: Time, k: Key)
    requires ExpirySim(t, h, orders, clock) && k.OrderKey? == orders
    ensures Text(k) in t ==> k in h
    ensures Unreadable(k) && k in h ==> Text(k) in t
  {
    hide Text, Unreadable;
  }

  lemma CooldownSim(t: Limiter, h: Ledger, rules: Rules, order: nat, scope: Scope, identity: string, duration: int, now: Time)
    requires Sim(t, h, rules, now)
    ensures var (u, r) := ApplyCooldown(t, order, scope, identity, duration, now);
      var (g, s) := Note(h, Cooldown(order, scope, identity, duration), now);
      r == s && Sim(u, g, rules, now)
  {
    hide Text, Listed, Mine, SessionOf, Unreadable, IndexSim, DequeSim, ExpirySim, Extend;
    if identity != "" && duration > 0 {
      var k, expiry := OrderKey(order, scope, identity), now + duration * MS;
      ExtendKeepsExpiry(t.cooldowns, h.cooldowns, true, now, k, expiry, now);
      ListedUnder(t.(cooldowns := Extend(t.cooldowns, Text(k), expiry)), Text(k) !in t.cooldowns, k, Done);
      var u := ApplyCooldown(t, order, scope, identity, duration, now).0;
      var g := h.(cooldowns := Latest(h.cooldowns, k, expiry));
      HeldExpiry(t.cooldowns, h.cooldowns, true, now, k);
      ActionKeepsIndex(t.index, h, u.index, g, k, Text(k) !in t.cooldowns);
    }
  }

  lemma BlacklistSim(t: Limiter, h: Ledger, rules: Rules, scope: Scope, identity: string, duration: int, now: Time)
    requires Sim(t, h, rules, now)
    ensures var (u, r) := ApplyBlacklist(t, scope, identity, duration, now);
      var (g, s) := Note(h, Blacklist(scope, identity, duration), now);
      r == s && Sim(u, g, rules, now)
  {
    hide Text, Listed, Mine, SessionOf, Unreadable, IndexSim, DequeSim, ExpirySim, Extend;
    if identity != "" && duration > 0 {
      var k, expiry := IdentityKey(scope, identity), now + duration * MS;
      ExtendKeepsExpiry(t.blacklists, h.blacklists, false, now, k, expiry, now);
      ListedUnder(t.(blacklists := Extend(t.blacklists, Text(k), expiry)), Text(k) !in t.blacklists, k, Done);
      var u := ApplyBlacklist(t, scope, identity, duration, now).0;
      var g := h.(blacklists := Latest(h.blacklists, k, expiry));
      HeldExpiry(t.blacklists, h.blacklists, false, now, k);
      ActionKeepsIndex(t.index, h, u.index, g, k, Text(k) !in t.blacklists);
    }
  }

  lemma StrikeSim(t: Limiter, h: Ledger, rules: Rules, order: nat, scope: Scope, identity: string, window: int, now: Time)
    requires Sim(t, h, rules, now) && Legal(Strike(order, scope, identity, window), rules)
    ensures var (u, r) := AddStrike(t, order, scope, identity, window, now);
      var (g, s) := Note(h, Strike(order, scope, identity, window), now);
      r == s && Sim(u, g, rules, now)
  {
    hide Text, Prune, Recent, Listed, Mine, SessionOf, Unreadable, IndexSim, DequeSim, ExpirySim;
    if identity != "" && window > 0 {
      var k := OrderKey(order, scope, identity);
      PushKeepsDeques(t.strikes, h.strikes, rules.strike, now, k, now);
      var q := Prune(Get(t.strikes, Text(k)), now, window * MS) + [now];
      ListedUnder(t.(strikes := t.strikes[Text(k) := q]), |Get(t.strikes, Text(k))| == 0, k, Struck(|q|));
      var u := AddStrike(t, order, scope, identity, window, now).0;
      var g := h.(strikes := h.strikes[k := Get(h.strikes, k) + [now]]);
      HeldDeque(t.strikes, h.strikes, rules.strike, now, k);
      ActionKeepsIndex(t.index, h, u.index, g, k, |Get(t.strikes, Text(k))| == 0);
    }
  }

  lemma ClearDeques(t: map<string, seq<Time>>, m: map<Key, seq<Time>>, window: Key -> int, clock: Time,
                    keys: set<string>, h: Ledger, sid: nat)
    requires DequeSim(t, m, window, clock) && forall k :: k in m ==> (Text(k) in keys <==> Forgotten(h, sid, k))
    ensures DequeSim(t - keys, Without(m, h, sid), window, clock)
  {
    hide Text, Forgotten, Recent, Sorted;
  }

  lemma ClearExpiry(t: map<string, Time>, m: map<Key, Time>, orders: bool, clock: Time,
                    keys: set<string>, h: Ledger, sid: nat)
    requires ExpirySim(t, m, orders, clock) && forall k :: k in m ==> (Text(k) in keys <==> Forgotten(h, sid, k))
    ensures ExpirySim(t - keys, Without(m, h, sid), orders, clock)
  {
    hide Text, Forgotten, Unreadable;
  }

  lemma ClearIsErase(t: Limiter, sid: nat)
    requires sid != 0
    ensures ClearSession(t, sid) == Erase(t, Elements(Get(t.index, sid))).(index := t.index - {sid})
  {
  }

  /** Clearing a session on the tables is forgetting what the ledger forgets. */
  lemma ClearSim(t: Limiter, h: Ledger, rules: Rules, sid: nat, now: Time)
    requires Sim(t, h, rules, now) && sid != 0
    ensures Sim(ClearSession(t, sid), Forget(h, sid), rules, now)
  {
    hide Text, Forgotten, Without, ClearSession, IndexSim, DequeSim, ExpirySim;
    var keys := Elements(Get(t.index, sid));
    ClearIsErase(t, sid);
    forall k: Key | Recorded(h, k) ensures Text(k) in keys <==> Forgotten(h, sid, k) {
      ListedIsForgotten(t.index, h, sid, k);
    }
    KindsAreRecorded(t, h, rules, now);
    ClearDeques(t.windows, h.attempts, rules.window, now, keys, h, sid);
    ClearDeques(t.strikes, h.strikes, rules.strike, now, keys, h, sid);
    ClearExpiry(t.cooldowns, h.cooldowns, true, now, keys, h, sid);
    ClearExpiry(t.blacklists, h.blacklists, false, now, keys, h, sid);
    ForgetKeepsIndex(t.index, h, sid);
  }

  lemma KindsAreRecorded(t: Limiter, h: Ledger, rules: Rules, now: Time)
    requires Sim(t, h, rules, now)
    ensures forall k :: k in h.attempts || k in h.strikes || k in h.cooldowns || k in h.blacklists ==> Recorded(h, k)
  {
    hide Text, IndexSim, Recent, Sorted;
  }

  // ---------------------------------------------------------------- whole runs

  lemma StepSim(t: Limiter, h: Ledger, rules: Rules, clock: Time, e: Event, now: Time)
    requires Sim(t, h, rules, clock) && clock <= now && Legal(e, rules)
    ensures var (u, r) := Step(t, e, now); var (g, s) := Note(h, e, now); r == s && Sim(u, g, rules, now)
  {
    hide Sim, Legal, ProcessPacket, NotePacket, ApplyCooldown, ApplyBlacklist, AddStrike, ClearSession, Forget, Latest;
    SimWaits(t, h, rules, clock, now);
    match e
    case Packet(order, id, rule) => PacketSim(t, h, rules, order, id, rule, now);
    case Cooldown(order, scope, identity, duration) => CooldownSim(t, h, rules, order, scope, identity, duration, now);
    case Blacklist(scope, identity, duration) => BlacklistSim(t, h, rules, scope, identity, duration, now);
    case Strike(order, scope, identity, window) => StrikeSim(t, h, rules, order, scope, identity, window, now);
    case Clear(sid) =>
      if sid == 0 {
        ClearNobody(t);
      } else {
        ClearSim(t, h, rules, sid, now);
      }
  }

  lemma ClearNobody(t: Limiter)
    ensures ClearSession(t, 0) == t
  {
  }

  function RunLedger(h: Ledger, es: seq<Stamped>): Ledger
    decreases |es|
  {
    if |es| == 0 then h else RunLedger(Note(h, es[0].event, es[0].now).0, es[1..])
  }

  function EndOf(es: seq<Stamped>, clock: Time): Time {
    if |es| == 0 then clock else es[|es| - 1].now
  }

  lemma {:induction false} RunSim(t: Limiter, h: Ledger, rules: Rules, clock: Time, es: seq<Stamped>)
    requires Sim(t, h, rules, clock) && Runs(es, rules, clock)
    ensures Replies(t, es) == LedgerReplies(h, es)
    ensures Sim(Run(t, es), RunLedger(h, es), rules, EndOf(es, clock))
    decreases |es|
  {
    hide Sim, Step, Note, Legal;
    if |es| > 0 {
      StepSim(t, h, rules, clock, es[0].event, es[0].now);
      RunSim(Step(t, es[0].event, es[0].now).0, Note(h, es[0].event, es[0].now).0, rules, es[0].now, es[1..]);
      assert EndOf(es, clock) == EndOf(es[1..], es[0].now);
    }
  }

  lemma NewSim(rules: Rules)
    ensures Sim(NEW_LIMITER, NEW_LEDGER, rules, 0)
  {
    hide Text;
  }

  /** In every run the pruned deques and lazily erased tables give the very replies of the
      ledger that never prunes and never expires: the same packets accepted, refused and
      limited, with the same waiting times and counts, and the same strike counts. */
  lemma DecidesByHistory(es: seq<Stamped>, rules: Rules)
    requires Runs(es, rules, 0)
    ensures Replies(NEW_LIMITER, es) == LedgerReplies(NEW_LEDGER, es)
  {
    hide Sim, Replies, LedgerReplies, Run, RunLedger;
    NewSim(rules);
    RunSim(NEW_LIMITER, NEW_LEDGER, rules, 0, es);
  }

  predicate SameAt<V(==)>(a: map<string, V>, b: map<string, V>, key: string) {
    (key in a <==> key in b) && (key in a ==> a[key] == b[key])
  }

  /** After any run, clearing a session removes exactly what the ledger forgets, the session's own
      keys and the twins of those it has a record of, from every table, and leaves every other entry as it was. */
  lemma ClearIsExact(es: seq<Stamped>, rules: Rules, sid: nat, k: Key)
    requires Runs(es, rules, 0) && sid != 0
    ensures var t := Run(NEW_LIMITER, es); var u := ClearSession(t, sid);
      if Forgotten(RunLedger(NEW_LEDGER, es), sid, k) then !Holds(u, k)
      else if k.OrderKey? then
        && SameAt(t.windows, u.windows, Text(k)) && SameAt(t.strikes, u.strikes, Text(k))
        && SameAt(t.cooldowns, u.cooldowns, Text(k))
      else SameAt(t.blacklists, u.blacklists, Text(k))
  {
    hide Text, Forgotten, Run, RunLedger, Runs, Sim, Recorded;
    NewSim(rules);
    RunSim(NEW_LIMITER, NEW_LEDGER, rules, 0, es);
    var t, h := Run(NEW_LIMITER, es), RunLedger(NEW_LEDGER, es);
    ClearIsErase(t, sid);
    SimHasIndex(t, h, rules, EndOf(es, 0));
    if Holds(t, k) {
      HeldIsRecorded(t, h, rules, EndOf(es, 0), k);
      ListedIsForgotten(t.index, h, sid, k);
    }
  }

  lemma SimHasIndex(t: Limiter, h: Ledger, rules: Rules, now: Time)
    requires Sim(t, h, rules, now)
    ensures IndexSim(t.index, h)
  {
    hide IndexSim, DequeSim, ExpirySim;
  }

  /** The event, with its reply, leaves a record of `k`. */
  predicate Leaves(e: Event, reply: Reply, k: Key) {
    match e
    case Packet(_, _, _) => CountsFor(e, k) && !reply.Refused?
    case Cooldown(order, scope, identity, duration) => identity != "" && duration > 0 && k == OrderKey(order, scope, identity)
    case Strike(order, scope, identity, window) => identity != "" && window > 0 && k == OrderKey(order, scope, identity)
    case Blacklist(scope, identity, duration) => identity != "" && duration > 0 && k == IdentityKey(scope, identity)
    case Clear(_) => false
  }

  predicate CountsFor(e: Event, k: Key) {
    e.Packet? && e.rule.enabled && Bucketed(e.id, e.rule) && BucketKey(e.order, e.id, e.rule) == k
  }

  /** Since its session was last cleared an attempt, a strike, a cooldown or a blacklisting of `k`
      happened in the run, or before it. */
  predicate Happened(t: Limiter, es: seq<Stamped>, k: Key, before: bool)
    decreases |es|
  {
    if |es| == 0 then before
    else
      var e := es[0].event;
      var (u, reply) := Step(t, e, es[0].now);
      Happened(u, es[1..], k, if e.Clear? && Mine(k, e.sid) then false else before || Leaves(e, reply, k))
  }

  lemma NoteRecords(h: Ledger, e: Event, now: Time, k: Key, own: nat)
    requires Mine(k, own)
    ensures Recorded(Note(h, e, now).0, k) <==>
            !(e.Clear? && Mine(k, e.sid)) && (Recorded(h, k) || Leaves(e, Note(h, e, now).1, k))
  {
    hide FirstActive, Recent, IdentityValue, KeysOf, SessionOf, Twin, Forgotten, Unreadable;
    if e.Clear? {
      OwnedForgotten(h, e.sid, own, k);
      RecordedAfterForget(h, e.sid);
    }
  }

  /** The ledger's record of a session's own key is what happened in the run. */
  lemma {:induction false} RecordedIsHappened(t: Limiter, h: Ledger, rules: Rules, clock: Time, es: seq<Stamped>,
                                              k: Key, own: nat)
    requires Sim(t, h, rules, clock) && Runs(es, rules, clock) && Mine(k, own)
    ensures Recorded(RunLedger(h, es), k) == Happened(t, es, k, Recorded(h, k))
    decreases |es|
  {
    hide Sim, Step, Note, Legal, Recorded, Leaves, Mine;
    if |es| > 0 {
      var e, now := es[0].event, es[0].now;
      StepSim(t, h, rules, clock, e, now);
      NoteRecords(h, e, now, k, own);
      RecordedIsHappened(Step(t, e, now).0, Note(h, e, now).0, rules, now, es[1..], k, own);
    }
  }

  /** When clearing a session erases an entry that is not the session's own, after any run: exactly
      if its twin is the session's own, and an attempt, a strike, a cooldown or a blacklisting of the
      twin happened since the session was last cleared. */
  lemma ForeignKeyCleared(es: seq<Stamped>, rules: Rules, sid: nat, k: Key)
    requires Runs(es, rules, 0) && sid != 0 && Holds(Run(NEW_LIMITER, es), k) && !Mine(k, sid)
    ensures !Holds(ClearSession(Run(NEW_LIMITER, es), sid), k) <==>
            Twin(k).Some? && Mine(Twin(k).value, sid) && Happened(NEW_LIMITER, es, Twin(k).value, false)
  {
    hide Text, Run, RunLedger, Runs, Sim, Recorded, Happened, ClearSession, Mine, Twin;
    ClearIsExact(es, rules, sid, k);
    NewSim(rules);
    NothingRecorded();
    if Twin(k).Some? && Mine(Twin(k).value, sid) {
      RecordedIsHappened(NEW_LIMITER, NEW_LEDGER, rules, 0, es, Twin(k).value, sid);
    }
  }

  lemma NothingRecorded()
    ensures forall k :: !Recorded(NEW_LEDGER, k)
  {
  }

  predicate CleanRun(es: seq<Stamped>) {
    forall e :: e in es && e.event.Blacklist? ==> Clean(IdentityKey(e.event.scope, e.event.identity))
  }

  lemma {:induction false} BlacklistsStayClean(h: Ledger, es: seq<Stamped>)
    requires CleanRun(es) && forall k :: k in h.blacklists ==> Clean(k)
    ensures forall k :: k in RunLedger(h, es).blacklists ==> Clean(k)
    decreases |es|
  {
    hide Clean, NotePacket, Twin;
    if |es| > 0 {
      assert es[0] in es;
      PacketsKeepBlacklists(h, es[0]);
      BlacklistsStayClean(Note(h, es[0].event, es[0].now).0, es[1..]);
    }
  }

  lemma PacketsKeepBlacklists(h: Ledger, e: Stamped)
    ensures e.event.Packet? ==> Note(h, e.event, e.now).0.blacklists == h.blacklists
  {
    hide FirstActive, Recent, IdentityValue, KeysOf;
  }

  /** As long as no blacklisted identity begins with a scope number and a bar, clearing a session forgets
      the session's own keys and nothing else. */
  lemma CleanRunsForgetOwn(es: seq<Stamped>, sid: nat, k: Key)
    requires CleanRun(es) && Recorded(RunLedger(NEW_LEDGER, es), k)
    ensures Forgotten(RunLedger(NEW_LEDGER, es), sid, k) <==> Mine(k, sid)
  {
    hide RunLedger, Twin, SessionOf;
    BlacklistsStayClean(NEW_LEDGER, es);
    if Twin(k).Some? {
      SharedText(Twin(k).value, k);
    }
  }

  /** The last reply of a run whose states are known. */
  lemma {:induction false} LastReply(ts: seq<Limiter>, es: seq<Stamped>)
    requires |ts| == |es| > 0
    requires forall i :: 0 <= i < |es| - 1 ==> ts[i + 1] == Step(ts[i], es[i].event, es[i].now).0
    ensures Replies(ts[0], es)[|es| - 1] == Step(ts[|es| - 1], es[|es| - 1].event, es[|es| - 1].now).1
    decreases |es|
  {
    hide Step;
    if |es| > 1 {
      LastReply(ts[1..], es[1..]);
    }
  }

  const POSER := Identity(0, 0, "", "0|5")
  const POSER_PACKET := Packet(7, POSER, Rule(true, Ip, 1, 1000))

  /** Such an identity can lose its blacklisting: a cooldown of session five, and the clearing of
      session five forgives it. Without the cooldown it stays refused. */
  lemma PosingIdentityIsForgiven(ban: Stamped, cool: Stamped, clear: Stamped, packet: Stamped)
    requires ban == At(0, Blacklist(Hwid, "0|5", 1000)) && cool == At(0, Cooldown(2, Session, "5", 1000))
    requires clear == At(0, Event.Clear(5)) && packet == At(0, POSER_PACKET)
    ensures Replies(NEW_LIMITER, [ban, cool, clear, packet])[3] == Accepted
    ensures Replies(NEW_LIMITER, [ban, clear, packet])[2] == Refused(BlacklistActive, 1000)
  {
    hide Step, Text, Replies;
    var text := Text(IdentityKey(Hwid, "0|5"));
    var t1 := NEW_LIMITER.(blacklists := map[text := 1000 * MS]);
    var t2 := t1.(cooldowns := map[text := 1000 * MS], index := map[5 := [text]]);
    PosingSteps(text);
    LastReply([NEW_LIMITER, t1, t2, NEW_LIMITER], [ban, cool, clear, packet]);
    LastReply([NEW_LIMITER, t1, t1], [ban, clear, packet]);
  }

  lemma PosingSteps(text: string)
    requires text == Text(IdentityKey(Hwid, "0|5"))
    ensures var t1 := NEW_LIMITER.(blacklists := map[text := 1000 * MS]);
      var t2 := t1.(cooldowns := map[text := 1000 * MS], index := map[5 := [text]]);
      && Step(NEW_LIMITER, Blacklist(Hwid, "0|5", 1000), 0).0 == t1
      && Step(t1, Cooldown(2, Session, "5", 1000), 0).0 == t2
      && Step(t2, Event.Clear(5), 0).0 == NEW_LIMITER
      && Step(t1, Event.Clear(5), 0).0 == t1
      && Step(NEW_LIMITER, POSER_PACKET, 0).1 == Accepted
      && Step(t1, POSER_PACKET, 0).1 == Refused(BlacklistActive, 1000)
  {
    hide Text, KeysOf, ParseStoul;
    var t1 := NEW_LIMITER.(blacklists := map[text := 1000 * MS]);
    PosingKeys();
    var t2 := t1.(cooldowns := map[text := 1000 * MS], index := map[5 := [text]]);
    assert Elements([text]) == {text};
    assert map[text := 1000 * MS] - {text} == map[] && map[5 := [text]] - {5 as nat} == map[];
    assert Extend(map[], text, 1000 * MS) == map[text := 1000 * MS];
    assert Indexed(map[], 5, text) == map[5 := [text]] by { assert Get(map[], 5 as nat) + [text] == [text]; }
    assert ApplyCooldown(t1, 2, Session, "5", 1000, 0) == (t2, Done);
    assert Step(t2, Event.Clear(5), 0).0 == NEW_LIMITER;
    assert Sweep(map[], KeysOf(AnyOrder, POSER, SCOPES), 0) == (map[], 0);
    assert Sweep(map[], KeysOf(PerOrder(7), POSER, SCOPES), 0) == (map[], 0);
    assert Sweep(t1.blacklists, KeysOf(AnyOrder, POSER, SCOPES), 0) == (t1.blacklists, 1000);
    assert !Bucketed(POSER, Rule(true, Ip, 1, 1000));
  }

  lemma PosingKeys()
    ensures KeysOf(AnyOrder, POSER, SCOPES) == [IdentityKey(Hwid, "0|5")]
    ensures KeysOf(PerOrder(7), POSER, SCOPES) == [OrderKey(7, Hwid, "0|5")]
    ensures Text(OrderKey(2, Session, "5")) == Text(IdentityKey(Hwid, "0|5"))
    ensures ParseStoul("5") == Some(5)
  {
    assert Decimal(5) == "5" && Decimal(2) == "2" && Decimal(0) == "0";
    SessionOfDecimal(5);
    assert SCOPES[1..] == [Ip, Hwid, Aid] && SCOPES[1..][1..] == [Hwid, Aid] && SCOPES[1..][1..][1..] == [Aid];
    assert [Aid][1..] == [];
  }

  // ------------------------------------------------------------ what users see

  /** The attempts at or after `a`. */
  function Since(ts: seq<Time>, a: Time): nat {
    if |ts| == 0 then 0 else (if ts[0] >= a then 1 else 0) + Since(ts[1..], a)
  }

  lemma {:induction false} SinceIsRecent(ts: seq<Time>, a: Time, now: Time, window: Time)
    requires now < a + window
    ensures Since(ts, a) <= |Recent(ts, now, window)|
  {
    if |ts| > 0 {
      SinceIsRecent(ts[1..], a, now, window);
    }
  }

  lemma {:induction false} SinceAppend(ts: seq<Time>, t: Time, a: Time)
    ensures Since(ts + [t], a) == Since(ts, a) + (if t >= a then 1 else 0)
  {
    if |ts| > 0 {
      assert (ts + [t])[1..] == ts[1..] + [t];
      SinceAppend(ts[1..], t, a);
    } else {
      assert [t][1..] == [];
    }
  }

  /** The accepted packets of bucket `k` at times from `a` up to, not including, `a + window`. */
  function AcceptedIn(t: Limiter, es: seq<Stamped>, k: Key, a: Time, window: Time): nat
    decreases |es|
  {
    if |es| == 0 then 0
    else
      var (u, reply) := Step(t, es[0].event, es[0].now);
      (if CountsFor(es[0].event, k) && reply == Accepted && a <= es[0].now < a + window then 1 else 0)
      + AcceptedIn(u, es[1..], k, a, window)
  }

  /** No session is cleared that the key or its twin is about. */
  predicate Keeps(es: seq<Stamped>, k: Key) {
    forall e :: e in es && e.event.Clear? ==> Spares(e.event.sid, k)
  }

  predicate Spares(sid: nat, k: Key) {
    !Mine(k, sid) && (Twin(k).Some? ==> !Mine(Twin(k).value, sid))
  }

  lemma NoteGrows(h: Ledger, e: Event, now: Time, k: Key, a: Time)
    requires k.OrderKey? && (e.Clear? ==> Spares(e.sid, k))
    ensures Since(Get(Note(h, e, now).0.attempts, k), a) >= Since(Get(h.attempts, k), a)
    ensures CountsFor(e, k) && Note(h, e, now).1 == Accepted ==>
              && |Recent(Get(h.attempts, k), now, e.rule.window * MS)| < e.rule.max
              && Get(Note(h, e, now).0.attempts, k) == Get(h.attempts, k) + [now]
  {
    hide FirstActive, Latest, Recent, Since, IdentityValue, KeysOf, Mine, Twin;
    SinceAppend(Get(h.attempts, k), now, a);
  }

  lemma {:induction false} WindowBound(t: Limiter, h: Ledger, rules: Rules, clock: Time, es: seq<Stamped>,
                                       k: Key, a: Time, n: nat)
    requires Sim(t, h, rules, clock) && Runs(es, rules, clock) && Keeps(es, k) && k.OrderKey?
    requires n <= Since(Get(h.attempts, k), a) && n <= rules.max(k)
    ensures n + AcceptedIn(t, es, k, a, rules.window(k) * MS) <= rules.max(k)
    decreases |es|
  {
    hide Sim, Step, Note, Since, Recent, Spares, Bucketed;
    if |es| > 0 {
      var e, now, w := es[0].event, es[0].now, rules.window(k) * MS;
      var past := Get(h.attempts, k);
      var (u, r) := Step(t, e, now);
      StepSim(t, h, rules, clock, e, now);
      NoteGrows(h, e, now, k, a);
      var counted := CountsFor(e, k) && r == Accepted && a <= now < a + w;
      if counted {
        SinceIsRecent(past, a, now, w);
        SinceAppend(past, now, a);
      }
      WindowBound(u, Note(h, e, now).0, rules, now, es[1..], k, a, if counted then n + 1 else n);
    }
  }

  /** No interval as long as the window holds more accepted packets of a key than its
      limit, whatever happened before, as long as no session it or its twin is about is cleared meanwhile. */
  lemma SlidingWindow(before: seq<Stamped>, es: seq<Stamped>, rules: Rules, k: Key, a: Time)
    requires Runs(before, rules, 0) && Runs(es, rules, EndOf(before, 0)) && Keeps(es, k) && k.OrderKey?
    ensures AcceptedIn(Run(NEW_LIMITER, before), es, k, a, rules.window(k) * MS) <= rules.max(k)
  {
    hide Sim, Run, RunLedger, AcceptedIn, Runs;
    NewSim(rules);
    RunSim(NEW_LIMITER, NEW_LEDGER, rules, 0, before);
    WindowBound(Run(NEW_LIMITER, before), RunLedger(NEW_LEDGER, before), rules, EndOf(before, 0), es, k, a, 0);
  }

  lemma {:induction false} FirstActiveFinds(table: map<Key, Time>, keys: seq<Key>, now: Time)
    ensures FirstActive(table, keys, now) > 0 <==> exists k :: k in keys && k in table && now + MS <= table[k]
  {
    if |keys| > 0 {
      FirstActiveFinds(table, keys[1..], now);
    }
  }

  lemma ActiveOfSender(m: map<Key, Time>, id: Identity, now: Time)
    ensures (exists k :: k in KeysOf(AnyOrder, id, SCOPES) && k in m && now + MS <= m[k]) <==>
            exists scope, text :: Matches(id, scope, text) && IdentityKey(scope, text) in m &&
                                  now + MS <= m[IdentityKey(scope, text)]
  {
    hide Matches, KeysOf;
    forall k: Key ensures k in KeysOf(AnyOrder, id, SCOPES) <==> k.IdentityKey? && Matches(id, k.scope, k.identity) {
      KeysOfSender(AnyOrder, id, SCOPES, k);
      EveryScope(k.scope);
    }
    if scope, text :| Matches(id, scope, text) && IdentityKey(scope, text) in m && now + MS <= m[IdentityKey(scope, text)] {
      assert IdentityKey(scope, text) in KeysOf(AnyOrder, id, SCOPES);
    }
  }

  /** After any run, a packet under an enabled rule is refused as blacklisted exactly when
      one of its identities has a whole millisecond left of the longest blacklisting it
      ever got, whatever its cooldowns and its window say; and then no attempt is recorded. */
  lemma BlacklistsComeFirst(es: seq<Stamped>, rules: Rules, order: nat, id: Identity, rule: Rule, now: Time)
    requires Runs(es, rules, 0) && EndOf(es, 0) <= now && rule.enabled && Legal(Packet(order, id, rule), rules)
    ensures var t := Run(NEW_LIMITER, es); var h := RunLedger(NEW_LEDGER, es);
      var (u, reply) := ProcessPacket(t, order, id, rule, now);
      var banned := reply.Refused? && reply.why.BlacklistActive?;
      && (banned <==> exists scope, text :: Matches(id, scope, text) && IdentityKey(scope, text) in h.blacklists &&
                                            now + 1_000_000 <= h.blacklists[IdentityKey(scope, text)])
      && (banned ==> u == t.(blacklists := u.blacklists))
  {
    hide Sim, Run, RunLedger, Runs, KeysOf, Sweep, FirstActive, Attempt, NoteAttempt, Matches;
    NewSim(rules);
    RunSim(NEW_LIMITER, NEW_LEDGER, rules, 0, es);
    var t, h := Run(NEW_LIMITER, es), RunLedger(NEW_LEDGER, es);
    SimWaits(t, h, rules, EndOf(es, 0), now);
    PacketSim(t, h, rules, order, id, rule, now);
    FirstActiveFinds(h.blacklists, KeysOf(AnyOrder, id, SCOPES), now);
    ActiveOfSender(h.blacklists, id, now);
    var (blacklists, left) := Sweep(t.blacklists, KeysOf(AnyOrder, id, SCOPES), now);
    AttemptNeverRefuses(t.(blacklists := blacklists), h, order, id, rule, now);
    var cooldowns := Sweep(t.cooldowns, KeysOf(PerOrder(order), id, SCOPES), now).0;
    AttemptNeverRefuses(t.(blacklists := blacklists, cooldowns := cooldowns), h, order, id, rule, now);
  }

  lemma AttemptNeverRefuses(t: Limiter, h: Ledger, order: nat, id: Identity, rule: Rule, now: Time)
    ensures !Attempt(t, order, id, rule, now).1.Refused? && !NoteAttempt(h, order, id, rule, now).1.Refused?
  {
  }
}
