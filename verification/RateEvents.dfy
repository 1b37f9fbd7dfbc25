/** What the rate limiter answers, as a function of the events before, with no tables and no keys' texts. */
module RateEvents {
  import opened Options
  import opened RateKeys
  import opened RateLimit
  import opened RateHistory
  import opened RateSafety

  /** The whole milliseconds left. */
  function Left(until: Time, now: Time): int {
    if until <= now then 0 else (until - now) / 1_000_000
  }

  function Later(a: Time, b: Time): Time {
    if a < b then b else a
  }

  function First(a: int, b: int, c: int, d: int): int {
    if a > 0 then a else if b > 0 then b else if c > 0 then c else d
  }

  /** The times after `a`. */
  function After(ts: seq<Time>, a: Time): seq<Time> {
    if |ts| == 0 then [] else (if ts[0] > a then [ts[0]] else []) + After(ts[1..], a)
  }

  // ------------------------------------------------------ what is on record after some events

  /** When the longest blacklisting of an identity ends; zero if it has none. */
  function BannedUntil(es: seq<Stamped>, k: Key): Time
    decreases |es|, 0
  {
    if |es| == 0 then 0
    else
      var n := |es| - 1;
      var before := BannedUntil(es[..n], k);
      match es[n].event
      case Blacklist(scope, text, duration) =>
        if text != "" && duration > 0 && k == IdentityKey(scope, text)
        then Later(before, es[n].now + duration * 1_000_000) else before
      case Clear(sid) => if Clears(es[..n], sid, k) then 0 else before
      case _ => before
  }

  /** And its longest cooldown for an order. */
  function CoolingUntil(es: seq<Stamped>, k: Key): Time
    decreases |es|, 0
  {
    if |es| == 0 then 0
    else
      var n := |es| - 1;
      var before := CoolingUntil(es[..n], k);
      match es[n].event
      case Cooldown(order, scope, text, duration) =>
        if text != "" && duration > 0 && k == OrderKey(order, scope, text)
        then Later(before, es[n].now + duration * 1_000_000) else before
      case Clear(sid) => if Clears(es[..n], sid, k) then 0 else before
      case _ => before
  }

  /** A packet counts for the key that its order, the scope its rule limits by, and a text of its sender make up. */
  predicate CountsUnder(e: Event, k: Key) {
    && e.Packet? && e.rule.enabled && e.rule.max > 0 && e.rule.window > 0
    && k.OrderKey? && k.order == e.order && k.scope == e.rule.bucket && Matches(e.id, k.scope, k.identity)
  }

  /** When packets that were not refused counted for a key. */
  function Attempts(es: seq<Stamped>, k: Key): seq<Time>
    decreases |es|, 0
  {
    if |es| == 0 then []
    else
      var n := |es| - 1;
      var before, e := Attempts(es[..n], k), es[n].event;
      if e.Clear? then (if Clears(es[..n], e.sid, k) then [] else before)
      else if CountsUnder(e, k) && !Answer(es[..n], e, es[n].now).Refused? then before + [es[n].now]
      else before
  }

  function Strikes(es: seq<Stamped>, k: Key): seq<Time>
    decreases |es|, 0
  {
    if |es| == 0 then []
    else
      var n := |es| - 1;
      var before := Strikes(es[..n], k);
      match es[n].event
      case Strike(order, scope, text, window) =>
        if text != "" && window > 0 && k == OrderKey(order, scope, text) then before + [es[n].now] else before
      case Clear(sid) => if Clears(es[..n], sid, k) then [] else before
      case _ => before
  }

  predicate OnRecord(es: seq<Stamped>, k: Key)
    decreases |es|, 1
  {
    BannedUntil(es, k) > 0 || CoolingUntil(es, k) > 0 || |Attempts(es, k)| > 0 || |Strikes(es, k)| > 0
  }

  /** Clearing a session clears its own keys, and the twins of those on record. */
  predicate Clears(es: seq<Stamped>, sid: nat, k: Key)
    decreases |es|, 2
  {
    Mine(k, sid) || (Twin(k).Some? && Mine(Twin(k).value, sid) && OnRecord(es, Twin(k).value))
  }

  // ------------------------------------------------------------------- the answers

  /** The blacklisting of the sender that counts: by session, else by address, else by hardware, else by account. */
  function BanLeft(es: seq<Stamped>, id: Identity, now: Time): int
    decreases |es|, 1
  {
    First(if id.sid != 0 then Left(BannedUntil(es, IdentityKey(Session, Decimal(id.sid))), now) else 0,
          if id.ip != "" then Left(BannedUntil(es, IdentityKey(Ip, id.ip)), now) else 0,
          if id.hwid != "" then Left(BannedUntil(es, IdentityKey(Hwid, id.hwid)), now) else 0,
          if id.aid > 0 then Left(BannedUntil(es, IdentityKey(Aid, Decimal(id.aid))), now) else 0)
  }

  function CooldownLeft(es: seq<Stamped>, order: nat, id: Identity, now: Time): int
    decreases |es|, 1
  {
    First(if id.sid != 0 then Left(CoolingUntil(es, OrderKey(order, Session, Decimal(id.sid))), now) else 0,
          if id.ip != "" then Left(CoolingUntil(es, OrderKey(order, Ip, id.ip)), now) else 0,
          if id.hwid != "" then Left(CoolingUntil(es, OrderKey(order, Hwid, id.hwid)), now) else 0,
          if id.aid > 0 then Left(CoolingUntil(es, OrderKey(order, Aid, Decimal(id.aid))), now) else 0)
  }

  /** One more attempt against a limit. */
  function Counted(es: seq<Stamped>, k: Key, rule: Rule, now: Time): Reply
    decreases |es|, 1
  {
    var recent := After(Attempts(es, k), now - rule.window * 1_000_000) + [now];
    if |recent| > rule.max then Limited(Left(recent[0] + rule.window * 1_000_000, now), |recent|) else Accepted
  }

  function LimitAnswer(es: seq<Stamped>, order: nat, id: Identity, rule: Rule, now: Time): Reply
    decreases |es|, 2
  {
    if rule.max == 0 || rule.window <= 0 then Accepted
    else match rule.bucket
      case Session => if id.sid != 0 then Counted(es, OrderKey(order, Session, Decimal(id.sid)), rule, now) else Accepted
      case Ip => if id.ip != "" then Counted(es, OrderKey(order, Ip, id.ip), rule, now) else Accepted
      case Hwid => if id.hwid != "" then Counted(es, OrderKey(order, Hwid, id.hwid), rule, now) else Accepted
      case Aid => if id.aid > 0 then Counted(es, OrderKey(order, Aid, Decimal(id.aid)), rule, now) else Accepted
  }

  /** What the limiter answers to an event after the events `es`. */
  function Answer(es: seq<Stamped>, e: Event, now: Time): Reply
    decreases |es|, 3
  {
    match e
    case Packet(order, id, rule) =>
      if !rule.enabled then Accepted
      else if BanLeft(es, id, now) > 0 then Refused(BlacklistActive, BanLeft(es, id, now))
      else if CooldownLeft(es, order, id, now) > 0 then Refused(CooldownActive, CooldownLeft(es, order, id, now))
      else LimitAnswer(es, order, id, rule, now)
    case Cooldown(order, scope, text, duration) =>
      if text != "" && duration > 0 && scope.Session? && ParseStoul(text).None?
         && CoolingUntil(es, OrderKey(order, scope, text)) == 0 then Threw else Done
    case Blacklist(scope, text, duration) =>
      if text != "" && duration > 0 && scope.Session? && ParseStoul(text).None?
         && BannedUntil(es, IdentityKey(scope, text)) == 0 then Threw else Done
    case Strike(order, scope, text, window) =>
      if text == "" || window <= 0 then Struck(0)
      else if scope.Session? && ParseStoul(text).None? && Strikes(es, OrderKey(order, scope, text)) == [] then Threw
      else Struck(|After(Strikes(es, OrderKey(order, scope, text)), now - window * 1_000_000)| + 1)
    case Clear(_) => Done
  }

  // ----------------------------------------------------- the ledger knows the record

  ghost predicate KnowsTimes(m: map<Key, seq<Time>>, k: Key, ts: seq<Time>) {
    Get(m, k) == ts && (k in m <==> |ts| > 0)
  }

  ghost predicate KnowsEnd(m: map<Key, Time>, k: Key, end: Time) {
    if k in m then m[k] == end > 0 else end == 0
  }

  ghost predicate KnowsKey(h: Ledger, es: seq<Stamped>, k: Key) {
    && KnowsTimes(h.attempts, k, Attempts(es, k)) && KnowsTimes(h.strikes, k, Strikes(es, k))
    && KnowsEnd(h.cooldowns, k, CoolingUntil(es, k)) && KnowsEnd(h.blacklists, k, BannedUntil(es, k))
  }

  /** Keys of one kind are in the tables of that kind. */
  ghost predicate Kinds(h: Ledger) {
    && (forall k :: k in h.attempts || k in h.strikes || k in h.cooldowns ==> k.OrderKey?)
    && (forall k :: k in h.blacklists ==> k.IdentityKey?)
  }

  ghost predicate Knows(h: Ledger, es: seq<Stamped>) {
    Kinds(h) && forall k: Key :: KnowsKey(h, es, k)
  }

  lemma {:induction false} AfterIsRecent(ts: seq<Time>, now: Time, window: Time)
    ensures Recent(ts, now, window) == After(ts, now - window)
  {
    if |ts| > 0 {
      AfterIsRecent(ts[1..], now, window);
    }
  }

  lemma RecordedIsOnRecord(h: Ledger, es: seq<Stamped>, k: Key)
    requires Knows(h, es)
    ensures Recorded(h, k) <==> OnRecord(es, k)
  {
    hide Attempts, Strikes, CoolingUntil, BannedUntil;
    assert KnowsKey(h, es, k);
  }

  lemma ForgottenIsCleared(h: Ledger, es: seq<Stamped>, sid: nat, k: Key)
    requires Knows(h, es)
    ensures Forgotten(h, sid, k) <==> Clears(es, sid, k)
  {
    hide Mine, Twin, Recorded, OnRecord, Knows;
    if Twin(k).Some? {
      RecordedIsOnRecord(h, es, Twin(k).value);
    }
  }

  lemma LeftIsRemaining(until: Time, now: Time)
    ensures Left(until, now) == Remaining(until, now)
  {
  }

  // ---------------------------------------------------------------- a packet's answer

  function EndLeft(m: map<Key, Time>, k: Key, now: Time): int {
    if k in m then Remaining(m[k], now) else 0
  }

  /** What a sender's text of one scope has left. */
  function ScopeLeft(m: map<Key, Time>, kind: Kind, id: Identity, scope: Scope, now: Time): int {
    if IdentityValue(id, scope) == "" then 0 else EndLeft(m, KeyFor(kind, scope, IdentityValue(id, scope)), now)
  }

  lemma FirstActiveOne(m: map<Key, Time>, kind: Kind, id: Identity, scopes: seq<Scope>, now: Time)
    ensures FirstActive(m, KeysOf(kind, id, scopes), now) ==
            if |scopes| == 0 then 0
            else if ScopeLeft(m, kind, id, scopes[0], now) > 0 then ScopeLeft(m, kind, id, scopes[0], now)
            else FirstActive(m, KeysOf(kind, id, scopes[1..]), now)
  {
    hide IdentityValue, Remaining, KeyFor;
    if |scopes| > 0 && IdentityValue(id, scopes[0]) != "" {
      var k := KeyFor(kind, scopes[0], IdentityValue(id, scopes[0]));
      assert KeysOf(kind, id, scopes) == [k] + KeysOf(kind, id, scopes[1..]);
      assert ([k] + KeysOf(kind, id, scopes[1..]))[1..] == KeysOf(kind, id, scopes[1..]);
    } else if |scopes| > 0 {
      assert KeysOf(kind, id, scopes) == KeysOf(kind, id, scopes[1..]);
    }
  }

  lemma FirstActiveOfSender(m: map<Key, Time>, kind: Kind, id: Identity, now: Time)
    ensures FirstActive(m, KeysOf(kind, id, SCOPES), now) ==
            First(ScopeLeft(m, kind, id, Session, now), ScopeLeft(m, kind, id, Ip, now),
                  ScopeLeft(m, kind, id, Hwid, now), ScopeLeft(m, kind, id, Aid, now))
  {
    hide ScopeLeft, FirstActive, KeysOf;
    FirstActiveOne(m, kind, id, SCOPES, now);
    FirstActiveOne(m, kind, id, [Ip, Hwid, Aid], now);
    FirstActiveOne(m, kind, id, [Hwid, Aid], now);
    FirstActiveOne(m, kind, id, [Aid], now);
    FirstActiveOne(m, kind, id, [], now);
    assert SCOPES[1..] == [Ip, Hwid, Aid] && [Ip, Hwid, Aid][1..] == [Hwid, Aid];
    assert [Hwid, Aid][1..] == [Aid] && [Aid][1..] == [];
    LeftIsNotNegative(m, kind, id, now);
  }

  lemma LeftIsNotNegative(m: map<Key, Time>, kind: Kind, id: Identity, now: Time)
    ensures ScopeLeft(m, kind, id, Aid, now) >= 0
  {
  }

  /** The ledger's end of a key is the record's. */
  lemma EndLeftIsLeft(h: Ledger, es: seq<Stamped>, k: Key, now: Time)
    requires Knows(h, es) && now >= 0
    ensures EndLeft(h.blacklists, k, now) == Left(BannedUntil(es, k), now)
    ensures EndLeft(h.cooldowns, k, now) == Left(CoolingUntil(es, k), now)
  {
    hide BannedUntil, CoolingUntil, Attempts, Strikes, KnowsTimes, Remaining, Left;
    assert KnowsKey(h, es, k);
    LeftIsRemaining(BannedUntil(es, k), now);
    LeftIsRemaining(CoolingUntil(es, k), now);
    LeftIsRemaining(0, now);
    NothingLeft(now);
  }

  lemma NothingLeft(now: Time)
    requires now >= 0
    ensures Left(0, now) == 0
  {
  }

  lemma ScopeLeftKnown(h: Ledger, es: seq<Stamped>, order: nat, id: Identity, now: Time)
    requires Knows(h, es) && now >= 0
    ensures BanLeft(es, id, now) ==
            First(ScopeLeft(h.blacklists, AnyOrder, id, Session, now), ScopeLeft(h.blacklists, AnyOrder, id, Ip, now),
                  ScopeLeft(h.blacklists, AnyOrder, id, Hwid, now), ScopeLeft(h.blacklists, AnyOrder, id, Aid, now))
    ensures CooldownLeft(es, order, id, now) ==
            First(ScopeLeft(h.cooldowns, PerOrder(order), id, Session, now),
                  ScopeLeft(h.cooldowns, PerOrder(order), id, Ip, now),
                  ScopeLeft(h.cooldowns, PerOrder(order), id, Hwid, now),
                  ScopeLeft(h.cooldowns, PerOrder(order), id, Aid, now))
  {
    hide Knows, BannedUntil, CoolingUntil, EndLeft, Left, First, Decimal;
    StoulOfDecimal(id.sid);
    if id.aid > 0 {
      StoulOfDecimal(id.aid);
      EndLeftIsLeft(h, es, IdentityKey(Aid, Decimal(id.aid)), now);
      EndLeftIsLeft(h, es, OrderKey(order, Aid, Decimal(id.aid)), now);
    }
    EndLeftIsLeft(h, es, IdentityKey(Session, Decimal(id.sid)), now);
    EndLeftIsLeft(h, es, OrderKey(order, Session, Decimal(id.sid)), now);
    EndLeftIsLeft(h, es, IdentityKey(Ip, id.ip), now);
    EndLeftIsLeft(h, es, OrderKey(order, Ip, id.ip), now);
    EndLeftIsLeft(h, es, IdentityKey(Hwid, id.hwid), now);
    EndLeftIsLeft(h, es, OrderKey(order, Hwid, id.hwid), now);
  }

  /** The limit's answer is that of the ledger's attempt. */
  lemma LimitKnown(h: Ledger, es: seq<Stamped>, order: nat, id: Identity, rule: Rule, now: Time)
    requires Knows(h, es)
    ensures NoteAttempt(h, order, id, rule, now).1 == LimitAnswer(es, order, id, rule, now)
  {
    hide Attempts, Recent, After, Decimal, Knows, KnowsKey;
    StoulOfDecimal(id.sid);
    if id.aid > 0 {
      StoulOfDecimal(id.aid);
    }
    if Bucketed(id, rule) {
      var k := BucketKey(order, id, rule);
      CountedKnown(h, es, k, rule, now);
    }
  }

  lemma CountedKnown(h: Ledger, es: seq<Stamped>, k: Key, rule: Rule, now: Time)
    requires Knows(h, es)
    ensures var recent := Recent(Get(h.attempts, k), now, rule.window * MS) + [now];
      Counted(es, k, rule, now) ==
      if |recent| > rule.max then Limited(Remaining(recent[0] + rule.window * MS, now), |recent|) else Accepted
  {
    hide Attempts, Strikes, CoolingUntil, BannedUntil, Recent, After;
    assert KnowsKey(h, es, k);
    AfterIsRecent(Attempts(es, k), now, rule.window * MS);
  }

  lemma PacketAnswer(h: Ledger, es: seq<Stamped>, order: nat, id: Identity, rule: Rule, now: Time)
    requires Knows(h, es) && now >= 0
    ensures NotePacket(h, order, id, rule, now).1 == Answer(es, Packet(order, id, rule), now)
    ensures NotePacket(h, order, id, rule, now).0 ==
            if rule.enabled && Bucketed(id, rule) && !Answer(es, Packet(order, id, rule), now).Refused?
            then NoteAttempt(h, order, id, rule, now).0 else h
  {
    hide Knows, FirstActive, KeysOf, BanLeft, CooldownLeft, LimitAnswer, ScopeLeft, First, IdentityValue;
    FirstActiveOfSender(h.blacklists, AnyOrder, id, now);
    FirstActiveOfSender(h.cooldowns, PerOrder(order), id, now);
    ScopeLeftKnown(h, es, order, id, now);
    LimitKnown(h, es, order, id, rule, now);
    AttemptNeverRefuses(NEW_LIMITER, h, order, id, rule, now);
  }

  // ---------------------------------------------------------- the record after one more event

  /** How one more event changes the record. */
  lemma RecordAfter(es: seq<Stamped>, x: Stamped, k: Key)
    ensures var e := x.event; var gone := e.Clear? && Clears(es, e.sid, k);
      && BannedUntil(es + [x], k) ==
         (if gone then 0
          else if e.Blacklist? && e.identity != "" && e.duration > 0 && k == IdentityKey(e.scope, e.identity)
          then Later(BannedUntil(es, k), x.now + e.duration * 1_000_000) else BannedUntil(es, k))
      && CoolingUntil(es + [x], k) ==
         (if gone then 0
          else if e.Cooldown? && e.identity != "" && e.duration > 0 && k == OrderKey(e.order, e.scope, e.identity)
          then Later(CoolingUntil(es, k), x.now + e.duration * 1_000_000) else CoolingUntil(es, k))
      && Attempts(es + [x], k) ==
         (if gone then []
          else if CountsUnder(e, k) && !Answer(es, e, x.now).Refused? then Attempts(es, k) + [x.now] else Attempts(es, k))
      && Strikes(es + [x], k) ==
         (if gone then []
          else if e.Strike? && e.identity != "" && e.window > 0 && k == OrderKey(e.order, e.scope, e.identity)
          then Strikes(es, k) + [x.now] else Strikes(es, k))
  {
    hide Clears, CountsUnder, Answer, BannedUntil, CoolingUntil, Attempts, Strikes;
    BannedAfter(es, x, k);
    CoolingAfter(es, x, k);
    AttemptsAfter(es, x, k);
    StrikesAfter(es, x, k);
  }

  lemma AttemptsAfter(es: seq<Stamped>, x: Stamped, k: Key)
    ensures var e := x.event;
      Attempts(es + [x], k) ==
      if e.Clear? && Clears(es, e.sid, k) then []
      else if CountsUnder(e, k) && !Answer(es, e, x.now).Refused? then Attempts(es, k) + [x.now] else Attempts(es, k)
  {
    hide Clears, Answer, Matches;
    var all := es + [x];
    assert all[..|all| - 1] == es && all[|all| - 1] == x;
  }

  lemma BannedAfter(es: seq<Stamped>, x: Stamped, k: Key)
    ensures var e := x.event;
      BannedUntil(es + [x], k) ==
      if e.Clear? && Clears(es, e.sid, k) then 0
      else if e.Blacklist? && e.identity != "" && e.duration > 0 && k == IdentityKey(e.scope, e.identity)
      then Later(BannedUntil(es, k), x.now + e.duration * 1_000_000) else BannedUntil(es, k)
  {
    hide Clears;
    var all := es + [x];
    assert all[..|all| - 1] == es && all[|all| - 1] == x;
  }

  lemma CoolingAfter(es: seq<Stamped>, x: Stamped, k: Key)
    ensures var e := x.event;
      CoolingUntil(es + [x], k) ==
      if e.Clear? && Clears(es, e.sid, k) then 0
      else if e.Cooldown? && e.identity != "" && e.duration > 0 && k == OrderKey(e.order, e.scope, e.identity)
      then Later(CoolingUntil(es, k), x.now + e.duration * 1_000_000) else CoolingUntil(es, k)
  {
    hide Clears;
    var all := es + [x];
    assert all[..|all| - 1] == es && all[|all| - 1] == x;
  }

  lemma StrikesAfter(es: seq<Stamped>, x: Stamped, k: Key)
    ensures var e := x.event;
      Strikes(es + [x], k) ==
      if e.Clear? && Clears(es, e.sid, k) then []
      else if e.Strike? && e.identity != "" && e.window > 0 && k == OrderKey(e.order, e.scope, e.identity)
      then Strikes(es, k) + [x.now] else Strikes(es, k)
  {
    hide Clears;
    var all := es + [x];
    assert all[..|all| - 1] == es && all[|all| - 1] == x;
  }

  lemma PacketKnown(h: Ledger, es: seq<Stamped>, e: Event, now: Time)
    requires Knows(h, es) && now >= 0 && e.Packet?
    ensures Note(h, e, now).1 == Answer(es, e, now) && Knows(Note(h, e, now).0, es + [At(now, e)])
  {
    hide Attempts, Strikes, CoolingUntil, BannedUntil, Answer, NotePacket, Matches, IdentityValue, Recent;
    PacketAnswer(h, es, e.order, e.id, e.rule, now);
    var g := Note(h, e, now).0;
    forall k: Key ensures KnowsKey(g, es + [At(now, e)], k) {
      assert KnowsKey(h, es, k);
      RecordAfter(es, At(now, e), k);
      MatchesIsValue(e.id, e.rule.bucket, k.identity);
    }
  }

  lemma CooldownKnown(h: Ledger, es: seq<Stamped>, e: Event, now: Time)
    requires Knows(h, es) && now >= 0 && (e.Cooldown? || e.Blacklist?)
    ensures Note(h, e, now).1 == Answer(es, e, now) && Knows(Note(h, e, now).0, es + [At(now, e)])
  {
    hide Attempts, Strikes, CoolingUntil, BannedUntil, ParseStoul;
    var g := Note(h, e, now).0;
    if e.Cooldown? {
      assert KnowsKey(h, es, OrderKey(e.order, e.scope, e.identity));
    } else {
      assert KnowsKey(h, es, IdentityKey(e.scope, e.identity));
    }
    forall k: Key ensures KnowsKey(g, es + [At(now, e)], k) {
      assert KnowsKey(h, es, k);
      RecordAfter(es, At(now, e), k);
    }
  }

  lemma StrikeKnown(h: Ledger, es: seq<Stamped>, e: Event, now: Time)
    requires Knows(h, es) && now >= 0 && e.Strike?
    ensures Note(h, e, now).1 == Answer(es, e, now) && Knows(Note(h, e, now).0, es + [At(now, e)])
  {
    hide Attempts, Strikes, CoolingUntil, BannedUntil, ParseStoul, Recent, After;
    var g, key := Note(h, e, now).0, OrderKey(e.order, e.scope, e.identity);
    assert KnowsKey(h, es, key);
    AfterIsRecent(Strikes(es, key), now, e.window * MS);
    forall k: Key ensures KnowsKey(g, es + [At(now, e)], k) {
      assert KnowsKey(h, es, k);
      RecordAfter(es, At(now, e), k);
    }
  }

  lemma ClearKnown(h: Ledger, es: seq<Stamped>, e: Event, now: Time)
    requires Knows(h, es) && e.Clear?
    ensures Note(h, e, now).1 == Answer(es, e, now) && Knows(Note(h, e, now).0, es + [At(now, e)])
  {
    hide Attempts, Strikes, CoolingUntil, BannedUntil, Forgotten, Clears;
    var g := Note(h, e, now).0;
    forall k: Key ensures KnowsKey(g, es + [At(now, e)], k) {
      assert KnowsKey(h, es, k);
      RecordAfter(es, At(now, e), k);
      ForgottenIsCleared(h, es, e.sid, k);
      NobodyCleared(es, k);
    }
  }

  lemma NobodyCleared(es: seq<Stamped>, k: Key)
    ensures !Clears(es, 0, k)
  {
  }

  lemma NoteKnown(h: Ledger, es: seq<Stamped>, e: Event, now: Time)
    requires Knows(h, es) && now >= 0
    ensures Note(h, e, now).1 == Answer(es, e, now) && Knows(Note(h, e, now).0, es + [At(now, e)])
  {
    hide Knows, Note, Answer;
    match e
    case Packet(_, _, _) => PacketKnown(h, es, e, now);
    case Cooldown(_, _, _, _) => CooldownKnown(h, es, e, now);
    case Blacklist(_, _, _) => CooldownKnown(h, es, e, now);
    case Strike(_, _, _, _) => StrikeKnown(h, es, e, now);
    case Clear(_) => ClearKnown(h, es, e, now);
  }

  // ------------------------------------------------------------------ whole runs

  lemma {:induction false} RunLedgerOfMore(h: Ledger, es: seq<Stamped>, x: Stamped)
    ensures RunLedger(h, es + [x]) == Note(RunLedger(h, es), x.event, x.now).0
    decreases |es|
  {
    hide Note;
    if |es| > 0 {
      assert (es + [x])[1..] == es[1..] + [x];
      RunLedgerOfMore(Note(h, es[0].event, es[0].now).0, es[1..], x);
    } else {
      assert [x][1..] == [];
    }
  }

  lemma {:induction false} RunsOfMore(es: seq<Stamped>, x: Stamped, rules: Rules, clock: Time)
    requires Runs(es + [x], rules, clock)
    ensures Runs(es, rules, clock) && EndOf(es, clock) <= x.now && Legal(x.event, rules) && clock <= x.now
    decreases |es|
  {
    hide Legal;
    if |es| > 0 {
      assert (es + [x])[1..] == es[1..] + [x];
      RunsOfMore(es[1..], x, rules, es[0].now);
    }
  }

  lemma NothingKnown()
    ensures Knows(NEW_LEDGER, [])
  {
  }

  lemma {:induction false} LedgerKnows(es: seq<Stamped>, rules: Rules)
    requires Runs(es, rules, 0)
    ensures Knows(RunLedger(NEW_LEDGER, es), es)
    decreases |es|
  {
    hide Knows, Note, RunLedger;
    if |es| == 0 {
      NothingKnown();
      assert RunLedger(NEW_LEDGER, es) == NEW_LEDGER by { NoEvents(NEW_LEDGER); }
      assert es == [];
    } else {
      var n := |es| - 1;
      assert es == es[..n] + [es[n]];
      RunsOfMore(es[..n], es[n], rules, 0);
      LedgerKnows(es[..n], rules);
      RunLedgerOfMore(NEW_LEDGER, es[..n], es[n]);
      NoteKnown(RunLedger(NEW_LEDGER, es[..n]), es[..n], es[n].event, es[n].now);
      assert es[n] == At(es[n].now, es[n].event);
    }
  }

  lemma NoEvents(h: Ledger)
    ensures RunLedger(h, []) == h
  {
  }

  /** After any run the limiter answers the next event as the events before say. */
  lemma AnswersByEvents(es: seq<Stamped>, e: Event, now: Time, rules: Rules)
    requires Runs(es + [At(now, e)], rules, 0)
    ensures Step(Run(NEW_LIMITER, es), e, now).1 == Answer(es, e, now)
  {
    hide Runs, Run, RunLedger, Sim, Step, Note, Answer, Knows, Legal;
    RunsOfMore(es, At(now, e), rules, 0);
    NewSim(rules);
    RunSim(NEW_LIMITER, NEW_LEDGER, rules, 0, es);
    StepSim(Run(NEW_LIMITER, es), RunLedger(NEW_LEDGER, es), rules, EndOf(es, 0), e, now);
    LedgerKnows(es, rules);
    NoteKnown(RunLedger(NEW_LEDGER, es), es, e, now);
  }

  // ------------------------------------------------------------- what senders see of it

  /** A blacklisting or cooldown is on record because of an event. */
  lemma {:induction false} EndHasCause(es: seq<Stamped>, k: Key)
    ensures BannedUntil(es, k) > 0 ==> exists i :: 0 <= i < |es| && Bans(es[i], k, BannedUntil(es, k))
    ensures CoolingUntil(es, k) > 0 ==> exists i :: 0 <= i < |es| && Cools(es[i], k, CoolingUntil(es, k))
    decreases |es|
  {
    hide Clears;
    if |es| > 0 {
      EndHasCause(es[..|es| - 1], k);
    }
  }

  predicate Bans(x: Stamped, k: Key, until: Time) {
    && x.event.Blacklist? && x.event.identity != "" && x.event.duration > 0
    && k == IdentityKey(x.event.scope, x.event.identity) && until == x.now + x.event.duration * 1_000_000
  }

  predicate Cools(x: Stamped, k: Key, until: Time) {
    && x.event.Cooldown? && x.event.identity != "" && x.event.duration > 0
    && k == OrderKey(x.event.order, x.event.scope, x.event.identity) && until == x.now + x.event.duration * 1_000_000
  }

  lemma BanLeftOfSender(es: seq<Stamped>, id: Identity, now: Time)
    ensures BanLeft(es, id, now) > 0 <==>
            exists scope, text :: Matches(id, scope, text) && now + 1_000_000 <= BannedUntil(es, IdentityKey(scope, text))
  {
    hide BannedUntil, Decimal;
    assert Matches(id, Session, Decimal(id.sid)) <==> id.sid != 0;
    assert Matches(id, Ip, id.ip) <==> id.ip != "";
    assert Matches(id, Hwid, id.hwid) <==> id.hwid != "";
    assert id.aid > 0 ==> Matches(id, Aid, Decimal(id.aid));
  }

  lemma CooldownLeftOfSender(es: seq<Stamped>, order: nat, id: Identity, now: Time)
    ensures CooldownLeft(es, order, id, now) > 0 <==>
            exists scope, text ::
              Matches(id, scope, text) && now + 1_000_000 <= CoolingUntil(es, OrderKey(order, scope, text))
  {
    hide CoolingUntil, Decimal;
    assert Matches(id, Session, Decimal(id.sid)) <==> id.sid != 0;
    assert Matches(id, Ip, id.ip) <==> id.ip != "";
    assert Matches(id, Hwid, id.hwid) <==> id.hwid != "";
    assert id.aid > 0 ==> Matches(id, Aid, Decimal(id.aid));
  }

  lemma LimitNeverRefuses(es: seq<Stamped>, order: nat, id: Identity, rule: Rule, now: Time)
    ensures !LimitAnswer(es, order, id, rule, now).Refused?
  {
    hide Attempts, After, Decimal;
  }

  /** An enabled packet is refused as blacklisted exactly if a text its sender matches has a whole
      millisecond left of its longest blacklisting; else it is refused as cooling down exactly if such a
      text has one left of its longest cooldown for the order. */
  lemma RefusedIfMatched(es: seq<Stamped>, order: nat, id: Identity, rule: Rule, now: Time, rules: Rules)
    requires Runs(es + [At(now, Packet(order, id, rule))], rules, 0) && rule.enabled
    ensures var r := Step(Run(NEW_LIMITER, es), Packet(order, id, rule), now).1;
      var banned := exists scope, text ::
        Matches(id, scope, text) && now + 1_000_000 <= BannedUntil(es, IdentityKey(scope, text));
      var cooling := exists scope, text ::
        Matches(id, scope, text) && now + 1_000_000 <= CoolingUntil(es, OrderKey(order, scope, text));
      && (r.Refused? && r.why == BlacklistActive <==> banned)
      && (r.Refused? && r.why == CooldownActive <==> !banned && cooling)
  {
    hide Runs, Run, Step, Matches, BannedUntil, CoolingUntil, BanLeft, CooldownLeft, LimitAnswer;
    LimitNeverRefuses(es, order, id, rule, now);
    AnswersByEvents(es, Packet(order, id, rule), now, rules);
    BanLeftOfSender(es, id, now);
    CooldownLeftOfSender(es, order, id, now);
  }

  /** A blacklisting or a cooldown is felt at once and until less than a millisecond of it is left. */
  lemma RefusalIsFelt(es: seq<Stamped>, x: Stamped, order: nat, id: Identity, rule: Rule, now: Time, rules: Rules)
    requires Runs(es + [x] + [At(now, Packet(order, id, rule))], rules, 0) && rule.enabled
    requires x.event.Blacklist? || (x.event.Cooldown? && x.event.order == order)
    requires Matches(id, x.event.scope, x.event.identity) && x.event.duration > 0
    requires now + 1_000_000 <= x.now + x.event.duration * 1_000_000
    ensures var r := Step(Run(NEW_LIMITER, es + [x]), Packet(order, id, rule), now).1;
      r.Refused? && (x.event.Blacklist? ==> r.why == BlacklistActive)
  {
    hide Runs, Run, Step, Matches, BannedUntil, CoolingUntil;
    RefusedIfMatched(es + [x], order, id, rule, now, rules);
    var scope, text := x.event.scope, x.event.identity;
    MatchesIsValue(id, scope, text);
    if x.event.Blacklist? {
      BannedAfter(es, x, IdentityKey(scope, text));
      assert Matches(id, scope, text) && now + 1_000_000 <= BannedUntil(es + [x], IdentityKey(scope, text));
    } else {
      CoolingAfter(es, x, OrderKey(order, scope, text));
      assert Matches(id, scope, text) && now + 1_000_000 <= CoolingUntil(es + [x], OrderKey(order, scope, text));
    }
  }

  /** And a packet is refused only because of such an event. */
  lemma RefusalHasCause(es: seq<Stamped>, order: nat, id: Identity, rule: Rule, now: Time, rules: Rules)
    requires Runs(es + [At(now, Packet(order, id, rule))], rules, 0) && rule.enabled
    ensures var r := Step(Run(NEW_LIMITER, es), Packet(order, id, rule), now).1;
      r.Refused? ==> exists i :: 0 <= i < |es| && Causes(es[i], order, id, r.why, now)
  {
    hide Runs, Run, Step, Matches, BannedUntil, CoolingUntil;
    RefusedIfMatched(es, order, id, rule, now, rules);
    AnswersByEvents(es, Packet(order, id, rule), now, rules);
    var r := Step(Run(NEW_LIMITER, es), Packet(order, id, rule), now).1;
    TimesAreNotNegative(es, At(now, Packet(order, id, rule)), rules);
    if r.Refused? {
      if r.why == BlacklistActive {
        var scope, text :|
          Matches(id, scope, text) && now + 1_000_000 <= BannedUntil(es, IdentityKey(scope, text));
        EndHasCause(es, IdentityKey(scope, text));
      } else {
        var scope, text :|
          Matches(id, scope, text) && now + 1_000_000 <= CoolingUntil(es, OrderKey(order, scope, text));
        EndHasCause(es, OrderKey(order, scope, text));
      }
    }
  }

  predicate Causes(x: Stamped, order: nat, id: Identity, why: Refusal, now: Time) {
    && (if why == BlacklistActive then x.event.Blacklist? else x.event.Cooldown? && x.event.order == order)
    && Matches(id, x.event.scope, x.event.identity) && x.event.duration > 0
    && now + 1_000_000 <= x.now + x.event.duration * 1_000_000
  }

  lemma TimesAreNotNegative(es: seq<Stamped>, x: Stamped, rules: Rules)
    requires Runs(es + [x], rules, 0)
    ensures x.now >= 0
  {
    RunsOfMore(es, x, rules, 0);
  }
}
