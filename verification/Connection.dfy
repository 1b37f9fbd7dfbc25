/** A worker thread's database connection and its cache of prepared statements. */
module Connection {
  import opened Options

  /** What `connect` does: throw, return null, return a connection that is not valid,
      connect but throw when the schema is set, or succeed. */
  datatype ConnectOutcome = ConnectThrows | NullConnection | InvalidConnection | SchemaThrows | Connected

  /** What one call of `GetConnection` meets: the ping, the reconnect, and the connect. */
  datatype Look = Look(valid: bool, reconnects: bool, connect: ConnectOutcome)

  /** A statement prepared on one session of the database server. */
  datatype Statement = Statement(text: string, session: nat)

  /** The thread-local state; `session` is the server session of `tl_conn`. */
  datatype Client = Client(
    session: Option<nat>, generation: nat, inTransaction: bool,
    cacheGeneration: int, cache: map<string, Statement>, nextSession: nat)

  /** No generation is ever -1, so a new cache counts as stale. */
  const NEW_CLIENT := Client(None, 0, false, -1, map[], 0)

  const CACHE_LIMIT := 512

  /** A new server session is on the line. */
  function Fresh(c: Client): Client {
    c.(session := Some(c.nextSession), nextSession := c.nextSession + 1, generation := c.generation + 1)
  }

  /** `create_connection`; the second result says that it threw. */
  function Create(c: Client, how: ConnectOutcome): (Client, bool) {
    match how
    case ConnectThrows => (c.(session := None), true)
    case NullConnection => (c.(session := None, generation := c.generation + 1), false)
    case InvalidConnection => (Fresh(c), false)
    case SchemaThrows => (Fresh(c), true)
    case Connected => (Fresh(c), false)
  }

  function GetConnection(c: Client, look: Look): (Client, bool) {
    if c.session.None? then Create(c, look.connect)
    else if c.inTransaction || look.valid then (c, false)
    else if look.reconnects then (Fresh(c), false)
    else Create(c, look.connect)
  }

  function Refreshed(c: Client): Client {
    if c.cacheGeneration != c.generation then c.(cache := map[], cacheGeneration := c.generation) else c
  }

  /** `Prep`, or None if it threw. */
  function Prep(c: Client, look: Look, prepares: bool, text: string): (Client, Option<Statement>) {
    var (c1, threw) := GetConnection(c, look);
    if threw || c1.session.None? then (c1, None)
    else
      var c2 := Refreshed(c1);
      if text in c2.cache then (c2, Some(c2.cache[text]))
      else
        var c3 := if |c2.cache| >= CACHE_LIMIT then c2.(cache := map[]) else c2;
        var s := Statement(text, c3.session.value);
        if prepares then (c3.(cache := c3.cache[text := s]), Some(s)) else (c3, None)
  }

  /** What a thread does with its connection; a transaction begins on a connection it has. */
  datatype Event =
    | Ask(text: string, look: Look, prepares: bool)
    | Touch(look: Look)
    | Begin
    | End

  predicate Enabled(c: Client, e: Event) {
    e.Begin? ==> c.session.Some?
  }

  function Step(c: Client, e: Event): Client {
    match e
    case Ask(text, look, prepares) => Prep(c, look, prepares, text).0
    case Touch(look) => GetConnection(c, look).0
    case Begin => c.(inTransaction := true)
    case End => c.(inTransaction := false)
  }

  predicate Runs(c: Client, es: seq<Event>)
    decreases |es|
  {
    |es| == 0 || (Enabled(c, es[0]) && Runs(Step(c, es[0]), es[1..]))
  }

  function Run(c: Client, es: seq<Event>): Client
    decreases |es|
  {
    if |es| == 0 then c else Run(Step(c, es[0]), es[1..])
  }

  /** A cache that counts as current holds statements of the current session, under their texts. */
  predicate Inv(c: Client) {
    && c.cacheGeneration <= c.generation && |c.cache| <= CACHE_LIMIT
    && (c.inTransaction ==> c.session.Some?)
    && (c.session.Some? ==> c.session.value < c.nextSession)
    && (c.session.Some? && c.cacheGeneration == c.generation ==>
          forall text :: text in c.cache ==> c.cache[text] == Statement(text, c.session.value))
  }

  lemma GetKeepsInv(c: Client, look: Look)
    requires Inv(c)
    ensures Inv(GetConnection(c, look).0)
  {
  }

  lemma PrepKeepsInv(c: Client, look: Look, prepares: bool, text: string)
    requires Inv(c)
    ensures Inv(Prep(c, look, prepares, text).0)
  {
    hide GetConnection;
    GetKeepsInv(c, look);
  }

  lemma StepKeepsInv(c: Client, e: Event)
    requires Inv(c) && Enabled(c, e)
    ensures Inv(Step(c, e))
  {
    hide GetConnection, Prep;
    match e
    case Ask(text, look, prepares) => PrepKeepsInv(c, look, prepares, text);
    case Touch(look) => GetKeepsInv(c, look);
    case _ =>
  }

  lemma {:induction false} RunKeepsInv(c: Client, es: seq<Event>)
    requires Inv(c) && Runs(c, es)
    ensures Inv(Run(c, es))
    decreases |es|
  {
    hide Inv, Step, Enabled;
    if |es| > 0 {
      StepKeepsInv(c, es[0]);
      RunKeepsInv(Step(c, es[0]), es[1..]);
    }
  }

  /** Through any mix of reconnects, failed connects, requests and transactions: a statement
      that `Prep` returns has the asked text and was prepared on the session the thread is on
      now; at most 512 are cached; and inside a transaction the session is not swapped. */
  lemma PrepSafety(es: seq<Event>, look: Look, prepares: bool, text: string)
    requires Runs(NEW_CLIENT, es)
    ensures var c := Run(NEW_CLIENT, es); var (d, s) := Prep(c, look, prepares, text);
      && (s.Some? ==> d.session.Some? && s.value == Statement(text, d.session.value))
      && |d.cache| <= 512
      && (c.inTransaction ==> c.session.Some? && d.session == c.session)
  {
    hide Run, Runs;
    RunKeepsInv(NEW_CLIENT, es);
    StepKeepsInv(Run(NEW_CLIENT, es), Ask(text, look, prepares));
  }

  /** A thread's session and its cached statements after a whole transaction's worth of requests. */
  lemma {:induction false} TransactionKeepsSession(c: Client, es: seq<Event>)
    requires Inv(c) && c.inTransaction && forall e :: e in es ==> e.Ask? || e.Touch?
    ensures Run(c, es).session == c.session && Run(c, es).inTransaction
    decreases |es|
  {
    hide Inv, Refreshed;
    if |es| > 0 {
      assert es[0] in es;
      StepKeepsInv(c, es[0]);
      SessionKept(c, es[0]);
      TransactionKeepsSession(Step(c, es[0]), es[1..]);
    }
  }

  lemma SessionKept(c: Client, e: Event)
    requires Inv(c) && c.inTransaction && (e.Ask? || e.Touch?)
    ensures Step(c, e).session == c.session && Step(c, e).inTransaction
  {
  }

  // --------------------------------------------- when there is a session, and when a statement

  /** `connect` gives the thread a connection: it neither throws, at once or at the schema, nor yields null. */
  predicate Connects(look: Look) {
    look.connect == InvalidConnection || look.connect == Connected
  }

  /** A thread outside a transaction comes to a session: it has one that answers the ping or
      reconnects, or it connects. */
  predicate Usable(has: bool, look: Look) {
    (has && (look.valid || look.reconnects)) || Connects(look)
  }

  /** The session stays the one it was. */
  predicate Stays(c: Client, look: Look) {
    c.session.Some? && (c.inTransaction || look.valid)
  }

  /** `GetConnection` gives a session exactly if the thread is in a transaction or the session is usable; it
      is the thread's own if that is in a transaction or answers, and one never seen before if not. */
  lemma GetsSession(c: Client, look: Look)
    requires Inv(c)
    ensures var (d, threw) := GetConnection(c, look);
      && (!threw && d.session.Some? <==> c.inTransaction || Usable(c.session.Some?, look))
      && (Stays(c, look) ==> d == c)
      && (!Stays(c, look) && d.session.Some? ==> d.session == Some(c.nextSession))
      && (c.session.Some? && !Stays(c, look) ==> d.session != c.session)
  {
  }

  /** The text is cached for the session that the thread keeps. */
  predicate Cached(c: Client, look: Look, text: string) {
    Stays(c, look) && c.cacheGeneration == c.generation && text in c.cache
  }

  /** `Prep` returns a statement exactly if there is a session and the text is cached for it or can be
      prepared; asked again while the session stays, it returns the same one without preparing it. What
      is cached stays cached unless the session is replaced or the limit is reached. */
  lemma PrepReturns(c: Client, look: Look, prepares: bool, text: string, again: Look, able: bool, other: string)
    requires Inv(c)
    ensures var (d, s) := Prep(c, look, prepares, text);
      && (s.Some? <==> (c.inTransaction || Usable(c.session.Some?, look)) && (prepares || Cached(c, look, text)))
      && (s.Some? && again.valid ==> Prep(d, again, able, text) == (d, s))
      && (Cached(c, look, other) && (|c.cache| < 512 || Cached(c, look, text)) ==>
            Cached(d, look, other) && d.cache[other] == c.cache[other])
  {
    hide GetConnection;
    GetsSession(c, look);
    GetKeepsInv(c, look);
    GetsSession(Prep(c, look, prepares, text).0, again);
    GenerationGrows(c, look);
  }

  lemma GenerationGrows(c: Client, look: Look)
    ensures var d := GetConnection(c, look).0;
      && d.inTransaction == c.inTransaction && d.cache == c.cache && d.cacheGeneration == c.cacheGeneration
      && (d.session.Some? && !Stays(c, look) ==> d.generation == c.generation + 1)
  {
  }
}
