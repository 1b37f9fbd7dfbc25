/** The text keys of the rate limiter, and when they tell identities apart. */
module RateKeys {
  import opened Options

  datatype Scope = Session | Ip | Hwid | Aid

  const SCOPES: seq<Scope> := [Session, Ip, Hwid, Aid]

  function ScopeNumber(s: Scope): nat {
    match s case Session => 0 case Ip => 1 case Hwid => 2 case Aid => 3
  }

  /** Who sent a packet; zero, a non-positive account and empty strings mean unknown. */
  datatype Identity = Identity(sid: nat, aid: int, ip: string, hwid: string)

  const DIGITS := "0123456789"

  function Decimal(n: nat): string {
    if n < 10 then [DIGITS[n]] else Decimal(n / 10) + [DIGITS[n % 10]]
  }

  /** The number a string of digits stands for. */
  function Stoul(s: string): nat {
    if |s| == 0 then 0 else 10 * Stoul(s[..|s| - 1]) + DigitValue(s[|s| - 1])
  }

  function DigitValue(c: char): nat {
    if '0' <= c <= '9' then (c as int - '0' as int) else 0
  }

  /** The identity text of a scope, empty if it is unknown. */
  function IdentityValue(id: Identity, s: Scope): string {
    match s
    case Session => if id.sid != 0 then Decimal(id.sid) else ""
    case Ip => id.ip
    case Hwid => id.hwid
    case Aid => if id.aid > 0 then Decimal(id.aid) else ""
  }

  /** What a key of the tables stands for. */
  datatype Key =
    | OrderKey(order: nat, scope: Scope, identity: string)
    | IdentityKey(scope: Scope, identity: string)

  function Text(k: Key): string {
    match k
    case OrderKey(order, scope, identity) => Decimal(order) + "|" + (Decimal(ScopeNumber(scope)) + "|" + identity)
    case IdentityKey(scope, identity) => Decimal(ScopeNumber(scope)) + "|" + identity
  }

  predicate BarFree(s: string) {
    '|' !in s
  }

  lemma {:induction false} StoulOfDecimal(n: nat)
    ensures Stoul(Decimal(n)) == n
    ensures BarFree(Decimal(n)) && |Decimal(n)| > 0
  {
    var last := DIGITS[n % 10];
    assert DigitValue(last) == n % 10 && last != '|';
    if n >= 10 {
      StoulOfDecimal(n / 10);
      var d := Decimal(n);
      assert d[..|d| - 1] == Decimal(n / 10) && d[|d| - 1] == last;
    } else {
      assert Decimal(n)[..0] == "";
    }
  }

  lemma DecimalInjective(m: nat, n: nat)
    requires Decimal(m) == Decimal(n)
    ensures m == n
  {
    StoulOfDecimal(m);
    StoulOfDecimal(n);
  }

  /** The first bar splits a text in one way only. */
  lemma FirstBar(a: string, b: string, c: string, d: string)
    requires BarFree(a) && BarFree(c) && a + "|" + b == c + "|" + d
    ensures a == c && b == d
  {
    var t := a + "|" + b;
    assert t[|a|] == '|' && t[|c|] == '|';
    assert forall i :: 0 <= i < |a| ==> t[i] == a[i] && a[i] != '|';
    assert forall i :: 0 <= i < |c| ==> t[i] == c[i] && c[i] != '|';
    assert t[..|a|] == a && t[..|c|] == c;
    assert t[|a| + 1..] == b && t[|c| + 1..] == d;
  }

  lemma ScopeInjective(s: Scope, t: Scope)
    requires Decimal(ScopeNumber(s)) == Decimal(ScopeNumber(t))
    ensures s == t
  {
    DecimalInjective(ScopeNumber(s), ScopeNumber(t));
  }

  lemma SameShapeInjective(j: Key, k: Key)
    requires j.OrderKey? == k.OrderKey? && Text(j) == Text(k)
    ensures j == k
  {
    StoulOfDecimal(ScopeNumber(j.scope));
    StoulOfDecimal(ScopeNumber(k.scope));
    if j.OrderKey? {
      StoulOfDecimal(j.order);
      StoulOfDecimal(k.order);
      FirstBar(Decimal(j.order), Decimal(ScopeNumber(j.scope)) + "|" + j.identity,
               Decimal(k.order), Decimal(ScopeNumber(k.scope)) + "|" + k.identity);
      DecimalInjective(j.order, k.order);
    }
    FirstBar(Decimal(ScopeNumber(j.scope)), j.identity, Decimal(ScopeNumber(k.scope)), k.identity);
    ScopeInjective(j.scope, k.scope);
  }

  /** Keys of different shapes share a text exactly when the order number reads as the
      scope number and the rest of the order key reads as the identity. */
  lemma ShapesMeet(j: Key, k: Key)
    requires j.OrderKey? && k.IdentityKey?
    ensures Text(j) == Text(k) <==>
            j.order == ScopeNumber(k.scope) && k.identity == Decimal(ScopeNumber(j.scope)) + "|" + j.identity
  {
    var rest := Decimal(ScopeNumber(j.scope)) + "|" + j.identity;
    StoulOfDecimal(j.order);
    StoulOfDecimal(ScopeNumber(k.scope));
    if Text(j) == Text(k) {
      FirstBar(Decimal(j.order), rest, Decimal(ScopeNumber(k.scope)), k.identity);
      DecimalInjective(j.order, ScopeNumber(k.scope));
    }
  }

  /** The one key of the other shape with the same text, if there is one. */
  function Twin(k: Key): (twin: Option<Key>)
    ensures twin.Some? ==> twin.value.OrderKey? != k.OrderKey?
  {
    match k
    case OrderKey(order, scope, identity) =>
      if order < |SCOPES| then Some(IdentityKey(SCOPES[order], Decimal(ScopeNumber(scope)) + "|" + identity)) else None
    case IdentityKey(scope, identity) =>
      if |identity| >= 2 && '0' <= identity[0] <= '3' && identity[1] == '|'
      then Some(OrderKey(ScopeNumber(scope), SCOPES[DigitValue(identity[0])], identity[2..])) else None
  }

  lemma ScopeText(s: Scope)
    ensures Decimal(ScopeNumber(s)) == [DIGITS[ScopeNumber(s)]]
    ensures SCOPES[ScopeNumber(s)] == s && DigitValue(DIGITS[ScopeNumber(s)]) == ScopeNumber(s)
  {
  }

  /** An identity that begins with a scope number and a bar is the rest behind them. */
  lemma SplitIdentity(s: Scope, rest: string, identity: string)
    ensures var d := DIGITS[ScopeNumber(s)];
      identity == Decimal(ScopeNumber(s)) + "|" + rest <==>
      |identity| >= 2 && identity[0] == d && identity[1] == '|' && identity[2..] == rest
  {
    ScopeText(s);
    if |identity| >= 2 {
      assert identity == [identity[0]] + [identity[1]] + identity[2..];
    }
  }

  lemma ShapesMeetInTwins(j: Key, k: Key)
    requires j.OrderKey? && k.IdentityKey?
    ensures Text(j) == Text(k) <==> Twin(k) == Some(j)
    ensures Text(j) == Text(k) <==> Twin(j) == Some(k)
  {
    hide Text, Decimal;
    ShapesMeet(j, k);
    SplitIdentity(j.scope, j.identity, k.identity);
    ScopeText(j.scope);
    ScopeText(k.scope);
  }

  /** Two keys share a text exactly if they are the same or twins. */
  lemma SharedText(j: Key, k: Key)
    ensures Text(j) == Text(k) <==> j == k || Twin(k) == Some(j)
    ensures Twin(k) == Some(j) <==> Twin(j) == Some(k)
  {
    hide Text, Decimal;
    if j.OrderKey? == k.OrderKey? {
      if Text(j) == Text(k) {
        SameShapeInjective(j, k);
      }
    } else if j.OrderKey? {
      ShapesMeetInTwins(j, k);
    } else {
      ShapesMeetInTwins(k, j);
    }
  }

  // ------------------------------------------------- reading a number as the library does

  predicate IsSpace(c: char) {
    c == ' ' || 9 <= c as int <= 13
  }

  predicate IsDigit(c: char) {
    '0' <= c <= '9'
  }

  function SkipSpace(s: string): string {
    if |s| > 0 && IsSpace(s[0]) then SkipSpace(s[1..]) else s
  }

  /** The digits a string begins with. */
  function Digits(s: string): string {
    if |s| > 0 && IsDigit(s[0]) then [s[0]] + Digits(s[1..]) else ""
  }

  const ULONG_LIMIT: nat := 0x1_0000_0000_0000_0000

  /** `std::stoul`, with None for its exceptions: blanks, a sign, then digits up to anything else;
      a minus sign wraps around. */
  function ParseStoul(s: string): Option<nat> {
    var t := SkipSpace(s);
    var signed := |t| > 0 && (t[0] == '-' || t[0] == '+');
    var d := Digits(if signed then t[1..] else t);
    if d == "" || Stoul(d) >= ULONG_LIMIT then None
    else Some(if signed && t[0] == '-' then (ULONG_LIMIT - Stoul(d)) % ULONG_LIMIT else Stoul(d))
  }

  lemma {:induction false} DigitsOfDecimal(n: nat)
    ensures forall i :: 0 <= i < |Decimal(n)| ==> IsDigit(Decimal(n)[i])
    ensures |Decimal(n)| > 0 && (n > 0 ==> Decimal(n)[0] != '0') && (n == 0 ==> Decimal(n) == "0")
  {
    assert IsDigit(DIGITS[n % 10]) && (n % 10 != 0 ==> DIGITS[n % 10] != '0');
    if n >= 10 {
      DigitsOfDecimal(n / 10);
    }
  }

  lemma {:induction false} DigitsOfDigits(s: string)
    requires forall i :: 0 <= i < |s| ==> IsDigit(s[i])
    ensures Digits(s) == s
  {
    if |s| > 0 {
      DigitsOfDigits(s[1..]);
    }
  }

  /** The 16-bit session id that an identity text is listed under, zero if it is none. */
  function SessionOf(identity: string): nat {
    match ParseStoul(identity)
    case Some(n) => n % 0x1_0000
    case None => 0
  }

  /** The text of a session id is read back as the session id. */
  lemma SessionOfDecimal(sid: nat)
    requires sid < 0x1_0000
    ensures ParseStoul(Decimal(sid)) == Some(sid) && SessionOf(Decimal(sid)) == sid
  {
    hide Stoul, Decimal;
    StoulOfDecimal(sid);
    DigitsOfDecimal(sid);
    assert IsDigit(Decimal(sid)[0]);
    DigitsOfDigits(Decimal(sid));
  }

  /** `k` is about the session `sid`: it is a session's key, and its identity is read as that id. */
  predicate Mine(k: Key, sid: nat) {
    k.scope.Session? && sid != 0 && SessionOf(k.identity) == sid
  }

  /** A session's key whose identity is no number. */
  predicate Unreadable(k: Key) {
    k.scope.Session? && ParseStoul(k.identity).None?
  }

  /** The identities whose texts cannot be taken for an order key. */
  predicate Clean(k: Key) {
    k.IdentityKey? ==> Twin(k).None?
  }

  /** A scope number with a bar behind it is read as that number, whatever follows. */
  lemma ReadBeforeBar(scope: Scope, rest: string)
    ensures SessionOf(Decimal(ScopeNumber(scope)) + "|" + rest) == ScopeNumber(scope)
  {
    var d := [DIGITS[ScopeNumber(scope)]];
    var t := d + "|" + rest;
    ScopeText(scope);
    assert SkipSpace(t) == t;
    assert t[1..] == "|" + rest && Digits(t[1..]) == "" && Digits(t) == d;
    assert d[..0] == "" && Stoul(d) == ScopeNumber(scope);
  }

  /** The twin of a session's key has one of two forms: an identity that reads as zero, a bar and a text
      that is read as the session id; or order zero for the scope whose number is the session id. */
  lemma TwinOfOwned(k: Key, sid: nat)
    requires sid != 0
    ensures Twin(k).Some? && Mine(Twin(k).value, sid) <==>
            if k.IdentityKey? then "0|" <= k.identity && SessionOf(k.identity[2..]) == sid
            else k.order == 0 && ScopeNumber(k.scope) == sid
  {
    hide Decimal, ParseStoul, Stoul, SessionOf;
    ScopeText(k.scope);
    if k.OrderKey? {
      ReadBeforeBar(k.scope, k.identity);
    } else if |k.identity| >= 2 {
      assert k.identity[..2] == [k.identity[0], k.identity[1]];
    }
  }

  /** Of two twins only one is about a session. */
  lemma TwinsOfOwned(j: Key, k: Key, s: nat, sid: nat)
    requires Twin(k) == Some(j) && Mine(j, sid)
    ensures !Mine(k, s)
  {
    hide Twin, Decimal, SessionOf;
    TwinOfOwned(k, sid);
    SharedText(j, k);
    if Mine(k, s) {
      TwinOfOwned(j, s);
    }
  }

  datatype Kind = PerOrder(order: nat) | AnyOrder

  function KeyFor(kind: Kind, s: Scope, identity: string): Key {
    match kind
    case PerOrder(order) => OrderKey(order, s, identity)
    case AnyOrder => IdentityKey(s, identity)
  }

  /** The keys of one kind for the known identities of a sender, in the order of `scopes`. */
  function KeysOf(kind: Kind, id: Identity, scopes: seq<Scope>): (keys: seq<Key>)
    ensures forall k :: k in keys ==> k.OrderKey? == kind.PerOrder?
  {
    if |scopes| == 0 then []
    else (if IdentityValue(id, scopes[0]) == "" then [] else [KeyFor(kind, scopes[0], IdentityValue(id, scopes[0]))])
         + KeysOf(kind, id, scopes[1..])
  }

  /** A sender is known by a text of a scope. */
  predicate Matches(id: Identity, scope: Scope, text: string) {
    match scope
    case Session => id.sid != 0 && text == Decimal(id.sid)
    case Ip => text != "" && text == id.ip
    case Hwid => text != "" && text == id.hwid
    case Aid => id.aid > 0 && text == Decimal(id.aid)
  }

  lemma MatchesIsValue(id: Identity, scope: Scope, text: string)
    ensures Matches(id, scope, text) <==> text != "" && IdentityValue(id, scope) == text
  {
    hide Decimal;
    StoulOfDecimal(id.sid);
    if id.aid > 0 {
      StoulOfDecimal(id.aid);
    }
  }

  /** The keys of a sender are those of the texts it is known by. */
  lemma {:induction false} KeysOfSender(kind: Kind, id: Identity, scopes: seq<Scope>, k: Key)
    ensures k in KeysOf(kind, id, scopes) <==>
            k.scope in scopes && k == KeyFor(kind, k.scope, k.identity) && Matches(id, k.scope, k.identity)
  {
    hide Matches, IdentityValue;
    MatchesIsValue(id, k.scope, k.identity);
    if |scopes| > 0 {
      KeysOfSender(kind, id, scopes[1..], k);
    }
  }

  lemma EveryScope(s: Scope)
    ensures s in SCOPES
  {
    assert SCOPES[ScopeNumber(s)] == s;
  }
}
