/** A batch of accounts in one transaction: all of it is committed, or none. */
module Transactions {
  import opened Options
  import opened Connection

  /** The committed data, and the working copy of every open transaction by session. */
  datatype Server<D> = Server(committed: D, open: map<nat, D>)

  /** How a request ends: well, with an error of its stage (its SQL exceptions included), or with an
      exception of another kind, which nobody catches. */
  datatype Ending = Success | Failure | Escape

  /** One request of a stage of an account, which asks for the connection and runs a statement: what
      it makes of the data, and how it ends. A request that a stage skips leaves the data alone. */
  type Request<!D> = D -> (D, Ending)

  /** A statement runs in its session's transaction if one is open, and on its own if not. */
  function Data<D>(s: Server<D>, session: nat): D {
    if session in s.open then s.open[session] else s.committed
  }

  function Write<D>(s: Server<D>, session: nat, d: D): Server<D> {
    if session in s.open then s.(open := s.open[session := d]) else s.(committed := d)
  }

  /** What a session writes it reads; another session sees it only if it was not in a transaction, and none is touched. */
  lemma WrittenIsRead<D>(s: Server<D>, session: nat, d: D, other: nat)
    requires other != session
    ensures Data(Write(s, session, d), session) == d
    ensures Data(Write(s, session, d), other) == if session in s.open || other in s.open then Data(s, other) else d
    ensures Write(s, session, d).open.Keys == s.open.Keys
  {
  }

  /** COMMIT, which START TRANSACTION also does to a transaction that is still open. */
  function Commit<D>(s: Server<D>, session: nat): Server<D> {
    Server(Data(s, session), s.open - {session})
  }

  function Start<D>(s: Server<D>, session: nat): Server<D> {
    var t := Commit(s, session);
    t.(open := t.open[session := t.committed])
  }

  /** The server rolls back what a session that went away had open. */
  function Hangup<D>(s: Server<D>, before: Client, after: Client): Server<D> {
    if before.session.Some? && after.session != before.session then s.(open := s.open - {before.session.value}) else s
  }

  /** How COMMIT ends: it is done; it throws and nothing was committed; it throws although it was done. */
  datatype Finish = Committed | Lost | DoneButLost

  /** What one call of `UpdateAccounts` meets: its connection checks, whether the statement objects
      and START TRANSACTION work, a connection check for every request, COMMIT, and ROLLBACK. */
  datatype Env = Env(first: Look, alive: bool, second: Look, starts: bool, during: nat -> Look,
                     finish: Finish, last: Look, rollsBack: bool)

  datatype State<D> = State(client: Client, server: Server<D>)

  /** `GetConnection`, with what the server notices of it. */
  function Connect<D>(x: State<D>, look: Look): (State<D>, bool) {
    var (c, threw) := GetConnection(x.client, look);
    (State(c, Hangup(x.server, x.client, c)), threw)
  }

  /** The requests of all stages of all accounts, each on the connection it is given, up to the
      first that does not end well. */
  function RunRequests<D>(x: State<D>, requests: seq<Request<D>>, from: nat, during: nat -> Look): (State<D>, Ending)
    requires from <= |requests|
    decreases |requests| - from
  {
    if from == |requests| then (x, Success)
    else
      var (y, threw) := Connect(x, during(from));
      if threw || y.client.session.None? then (y, Failure)
      else
        var session := y.client.session.value;
        var (d, end) := requests[from](Data(y.server, session));
        var z := y.(server := Write(y.server, session, d));
        if end.Success? then RunRequests(z, requests, from + 1, during) else (z, end)
  }

  function RollBack<D>(x: State<D>, session: nat, works: bool): State<D> {
    if works then x.(server := x.server.(open := x.server.open - {session})) else x
  }

  /** The handler of an exception: the guard is gone, and a failing ROLLBACK is swallowed. */
  function Caught<D>(x: State<D>, env: Env): State<D> {
    var (y, threw) := Connect(x.(client := x.client.(inTransaction := false)), env.last);
    if threw || y.client.session.None? then y else RollBack(y, y.client.session.value, env.rollsBack)
  }

  /** The connection is there and START TRANSACTION worked; None says that the call ends with `Refused`. */
  function Opened<D>(x: State<D>, env: Env): (State<D>, bool) {
    var (x1, threw1) := Connect(x, env.first);
    if threw1 then (Caught(x1, env), false)
    else if x1.client.session.None? || !env.alive then (x1, false)
    else
      var (x2, threw2) := Connect(x1, env.second);
      if threw2 || x2.client.session.None? || !env.starts then (Caught(x2, env), false)
      else (State(x2.client.(inTransaction := true), Start(x2.server, x2.client.session.value)), true)
  }

  datatype Outcome = Updated | Failed | Escaped

  function Finished<D>(x: State<D>, session: nat, env: Env): (State<D>, Outcome) {
    var y := x.(server := Commit(x.server, session));
    match env.finish
    case Committed => (y.(client := x.client.(inTransaction := false)), Updated)
    case Lost => (Caught(x, env), Failed)
    case DoneButLost => (Caught(y, env), Failed)
  }

  function UpdateAccounts<D>(x: State<D>, requests: seq<Request<D>>, env: Env): (State<D>, Outcome) {
    var (x0, began) := Opened(x, env);
    if !began || x0.client.session.None? then (x0, Failed)
    else
      var session := x0.client.session.value;
      var (x1, end) := RunRequests(x0, requests, 0, env.during);
      var out := x1.(client := x1.client.(inTransaction := false));
      match end
      case Success => Finished(x1, session, env)
      case Failure => (RollBack(out, session, env.rollsBack), Failed)
      case Escape => (out, Escaped)
  }

  // ------------------------------------------------------------- all or nothing

  /** All requests in order, on one copy of the data. */
  function ApplyAll<D>(d: D, requests: seq<Request<D>>, from: nat): (D, Ending)
    requires from <= |requests|
    decreases |requests| - from
  {
    if from == |requests| then (d, Success)
    else
      var (e, end) := requests[from](d);
      if end.Success? then ApplyAll(e, requests, from + 1) else (e, end)
  }

  /** What requests in two batches do to the data: the second batch goes on where the first ended well. */
  lemma {:induction false} ApplyAllOfBoth<D>(d: D, a: seq<Request<D>>, b: seq<Request<D>>, from: nat)
    requires from <= |a|
    ensures var (e, end) := ApplyAll(d, a, from);
      ApplyAll(d, a + b, from) == if end.Success? then ApplyAll(e, b, 0) else (e, end)
    decreases |a| - from
  {
    if from < |a| {
      if a[from](d).1.Success? {
        ApplyAllOfBoth(a[from](d).0, a, b, from + 1);
      }
    } else {
      ApplyAllShifts(d, a, b, 0);
    }
  }

  lemma {:induction false} ApplyAllShifts<D>(d: D, a: seq<Request<D>>, b: seq<Request<D>>, from: nat)
    requires from <= |b|
    ensures ApplyAll(d, a + b, |a| + from) == ApplyAll(d, b, from)
    decreases |b| - from
  {
    if from < |b| && b[from](d).1.Success? {
      ApplyAllShifts(b[from](d).0, a, b, from + 1);
    }
  }

  lemma ApplyAllOfOne<D>(d: D, r: Request<D>)
    ensures ApplyAll(d, [], 0) == (d, Success) && ApplyAll(d, [r], 0) == r(d)
  {
    var (e, end) := r(d);
    assert ApplyAll(e, [r], 1) == (e, Success);
  }

  /** Inside a transaction every request works on the session's copy and nothing else. */
  lemma {:induction false} RequestsStayInTransaction<D>(x: State<D>, requests: seq<Request<D>>, from: nat,
                                                        during: nat -> Look)
    requires from <= |requests| && x.client.inTransaction && x.client.session.Some?
    requires x.client.session.value in x.server.open
    ensures var session := x.client.session.value;
      var (y, end) := RunRequests(x, requests, from, during);
      var (d, all) := ApplyAll(x.server.open[session], requests, from);
      && end == all && y.client == x.client
      && y.server == x.server.(open := x.server.open[session := d])
    decreases |requests| - from
  {
    if from < |requests| {
      var session := x.client.session.value;
      var (d, end) := requests[from](x.server.open[session]);
      var z := x.(server := x.server.(open := x.server.open[session := d]));
      assert Connect(x, during(from)) == (x, false);
      if end.Success? {
        RequestsStayInTransaction(z, requests, from + 1, during);
        assert z.server.open[session := d] == z.server.open;
      }
    } else {
      assert x.server.open[x.client.session.value := x.server.open[x.client.session.value]] == x.server.open;
    }
  }

  // --------------------------------------------------------------- what a call leaves

  /** What is committed, and what a transaction that was left open has made of it. */
  datatype Books<D> = Books(committed: D, pending: Option<D>)

  function BooksOf<D>(x: State<D>): Books<D> {
    var session := x.client.session;
    Books(x.server.committed,
          if session.Some? && session.value in x.server.open then Some(x.server.open[session.value]) else None)
  }

  /** Between calls: only the thread's own session may have a transaction open. */
  predicate AtRest<D>(x: State<D>) {
    !x.client.inTransaction && Inv(x.client) && forall s :: s in x.server.open ==> x.client.session == Some(s)
  }

  predicate Clean<D>(x: State<D>) {
    AtRest(x) && BooksOf(x).pending.None?
  }

  /** A transaction that was left open outlives the beginning of a call: its session is not replaced, and if
      START TRANSACTION fails, neither is it rolled back then. */
  predicate Outlives(env: Env) {
    env.first.valid && (env.alive ==> env.second.valid && (env.starts || (env.last.valid && !env.rollsBack)))
  }

  /** What the requests of a call that begins start from: the next START TRANSACTION commits what was left open. */
  function Base<D>(b: Books<D>, env: Env): D {
    if Outlives(env) && b.pending.Some? then b.pending.value else b.committed
  }

  /** A call, without sessions: whether it begins, what all its requests make of the base, and what then
      becomes of that. */
  function Booked<D>(b: Books<D>, began: bool, requests: seq<Request<D>>, env: Env): Books<D> {
    if !began then b.(pending := if Outlives(env) then b.pending else None)
    else
      var base := Base(b, env);
      var (work, end) := ApplyAll(base, requests, 0);
      match end
      case Success =>
        if !env.finish.Lost? then Books(work, None)
        else Books(base, if env.last.valid && !env.rollsBack then Some(work) else None)
      case Failure => Books(base, if env.rollsBack then None else Some(work))
      case Escape => Books(base, Some(work))
  }

  lemma ConnectAtRest<D>(x: State<D>, look: Look)
    requires AtRest(x)
    ensures var (y, threw) := Connect(x, look);
      && AtRest(y)
      && BooksOf(y) == BooksOf(x).(pending := if look.valid then BooksOf(x).pending else None)
      && (x.client.session.Some? && look.valid ==> y == x && !threw)
  {
    StepKeepsInv(x.client, Touch(look));
  }

  lemma CaughtAtRest<D>(x: State<D>, env: Env)
    requires AtRest(x.(client := x.client.(inTransaction := false)))
    ensures AtRest(Caught(x, env))
    ensures BooksOf(Caught(x, env)) ==
            BooksOf(x).(pending := if env.last.valid && !env.rollsBack then BooksOf(x).pending else None)
  {
    hide Connect, Inv;
    ConnectAtRest(x.(client := x.client.(inTransaction := false)), env.last);
  }

  /** A call that does not begin keeps or drops what was left open; one that does begin works on a copy of the base. */
  lemma OpenedOnBase<D>(x: State<D>, env: Env)
    requires AtRest(x)
    ensures var (y, began) := Opened(x, env); var b := BooksOf(x);
      && (!began ==> AtRest(y) && BooksOf(y) == Booked(b, false, [], env))
      && (began ==>
            && y.client.inTransaction && Inv(y.client) && y.client.session.Some?
            && y.server == Server(Base(b, env), map[y.client.session.value := Base(b, env)]))
  {
    hide Connect, Caught, Inv;
    var x1 := Connect(x, env.first).0;
    ConnectAtRest(x, env.first);
    CaughtAtRest(x1, env);
    var x2 := Connect(x1, env.second).0;
    ConnectAtRest(x1, env.second);
    CaughtAtRest(x2, env);
    if Opened(x, env).1 {
      InvInTransaction(x2.client);
      var session := x2.client.session.value;
      assert x2.server.open - {session} == map[];
    }
  }

  lemma InvInTransaction(c: Client)
    requires Inv(c) && c.session.Some?
    ensures Inv(c.(inTransaction := true)) && Inv(c.(inTransaction := false))
  {
  }

  /** After its requests a call ends its transaction, or leaves it open. */
  lemma EndedAtRest<D>(x: State<D>, session: nat, base: D, work: D, env: Env)
    requires x.client.session == Some(session) && Inv(x.client) && x.server == Server(base, map[session := work])
    ensures var out := x.(client := x.client.(inTransaction := false));
      && AtRest(out) && BooksOf(out) == Books(base, Some(work))
      && AtRest(RollBack(out, session, env.rollsBack))
      && BooksOf(RollBack(out, session, env.rollsBack)) == Books(base, if env.rollsBack then None else Some(work))
    ensures var y := Finished(x, session, env).0;
      && AtRest(y)
      && BooksOf(y) == (if !env.finish.Lost? then Books(work, None)
                        else Books(base, if env.last.valid && !env.rollsBack then Some(work) else None))
  {
    hide Caught, Inv;
    InvInTransaction(x.client);
    assert map[session := work] - {session} == map[];
    CaughtAtRest(x, env);
    CaughtAtRest(x.(server := Commit(x.server, session)), env);
  }

  /** What a call needs to begin: a usable session, statement objects, the session again, and a START
      TRANSACTION that works. */
  predicate Begins(client: Client, env: Env) {
    Usable(client.session.Some?, env.first) && env.alive && Usable(true, env.second) && env.starts
  }

  /** A call begins exactly then, after reconnects and new connections too. */
  lemma OpenedIfBegins<D>(x: State<D>, env: Env)
    requires AtRest(x)
    ensures Opened(x, env).1 <==> Begins(x.client, env)
  {
    hide GetConnection, Caught, Inv;
    var x1 := Connect(x, env.first).0;
    GetsSession(x.client, env.first);
    ConnectAtRest(x, env.first);
    GetsSession(x1.client, env.second);
  }

  /** Whatever an earlier call left open, a call does what `Booked` says, and what it reports is true. */
  lemma CallIsBooked<D>(x: State<D>, requests: seq<Request<D>>, env: Env)
    requires AtRest(x)
    ensures var (y, r) := UpdateAccounts(x, requests, env); var began := Begins(x.client, env);
      var end := ApplyAll(Base(BooksOf(x), env), requests, 0).1;
      && AtRest(y)
      && BooksOf(y) == Booked(BooksOf(x), began, requests, env)
      && (r.Updated? <==> began && end.Success? && env.finish.Committed?)
      && (r.Escaped? <==> began && end.Escape?)
  {
    hide Caught, Opened, Begins, RunRequests, ApplyAll, Inv, AtRest, BooksOf, Base;
    OpenedOnBase(x, env);
    OpenedIfBegins(x, env);
    var (x0, began) := Opened(x, env);
    if began {
      var session, base := x0.client.session.value, Base(BooksOf(x), env);
      RequestsStayInTransaction(x0, requests, 0, env.during);
      var x1 := RunRequests(x0, requests, 0, env.during).0;
      var work := ApplyAll(base, requests, 0).0;
      assert x1.server == Server(base, map[session := work]);
      EndedAtRest(x1, session, base, work, env);
    }
  }

  // ------------------------------------------------------------- one call, nothing left open before

  /** A call on a clean connection leaves its transaction open exactly if it began one and an exception
      escaped; or a stage failed and ROLLBACK failed too; or COMMIT was lost, and ROLLBACK failed on a
      connection that still answers. */
  predicate Leaves<D>(x: State<D>, requests: seq<Request<D>>, env: Env) {
    Begins(x.client, env) &&
    match ApplyAll(x.server.committed, requests, 0).1
    case Success => env.finish.Lost? && env.last.valid && !env.rollsBack
    case Failure => !env.rollsBack
    case Escape => true
  }

  /** It takes effect exactly if its transaction began, every request ended well, and COMMIT was not lost. */
  predicate Commits<D>(x: State<D>, requests: seq<Request<D>>, env: Env) {
    Begins(x.client, env) && ApplyAll(x.server.committed, requests, 0).1.Success? && !env.finish.Lost?
  }

  /** `UpdateAccounts` on a clean connection: the data is afterwards what all requests of all accounts
      make of it, in order, if the call commits, and untouched if not; it reports success only
      if it committed; and the connection is clean again unless the call leaves its transaction open. */
  lemma AllOrNothing<D>(x: State<D>, requests: seq<Request<D>>, env: Env)
    requires Clean(x)
    ensures var (y, r) := UpdateAccounts(x, requests, env); var (d, end) := ApplyAll(x.server.committed, requests, 0);
      && y.server.committed == (if Commits(x, requests, env) then d else x.server.committed)
      && (r.Updated? <==> Commits(x, requests, env) && env.finish.Committed?)
      && (r.Escaped? <==> Begins(x.client, env) && end.Escape?)
      && AtRest(y)
      && (Clean(y) <==> !Leaves(x, requests, env))
      && (Leaves(x, requests, env) ==> !r.Updated? && BooksOf(y) == Books(x.server.committed, Some(d)))
  {
    hide UpdateAccounts, Opened, ApplyAll, AtRest;
    CallIsBooked(x, requests, env);
  }

  /** What a call left in its open transaction is committed as the next call begins exactly if that finds
      the connection valid both times and its START TRANSACTION works. */
  lemma LeftoverIsCommitted<D>(x: State<D>, requests: seq<Request<D>>, env: Env, next: Env)
    requires Clean(x) && Leaves(x, requests, env)
    ensures var (y, r) := UpdateAccounts(x, requests, env);
      && !r.Updated?
      && Opened(y, next).0.server.committed ==
         if next.first.valid && next.alive && next.second.valid && next.starts
         then ApplyAll(x.server.committed, requests, 0).0 else x.server.committed
  {
    hide UpdateAccounts, Opened, ApplyAll, AtRest;
    AllOrNothing(x, requests, env);
    var y := UpdateAccounts(x, requests, env).0;
    OpenedOnBase(y, next);
    OpenedIfBegins(y, next);
  }

  // ---------------------------------------------------------------- runs of calls

  datatype Call<!D> = Call(requests: seq<Request<D>>, env: Env)

  function RunCalls<D>(x: State<D>, calls: seq<Call<D>>): State<D>
    decreases |calls|
  {
    if |calls| == 0 then x else RunCalls(UpdateAccounts(x, calls[0].requests, calls[0].env).0, calls[1..])
  }

  /** Which calls begin a transaction. */
  function Begun<D>(x: State<D>, calls: seq<Call<D>>): (r: seq<bool>)
    ensures |r| == |calls|
    decreases |calls|
  {
    if |calls| == 0 then []
    else
      [Begins(x.client, calls[0].env)] + Begun(UpdateAccounts(x, calls[0].requests, calls[0].env).0, calls[1..])
  }

  function BookedAll<D>(b: Books<D>, calls: seq<Call<D>>, begun: seq<bool>): Books<D>
    requires |begun| == |calls|
    decreases |calls|
  {
    if |calls| == 0 then b
    else BookedAll(Booked(b, begun[0], calls[0].requests, calls[0].env), calls[1..], begun[1..])
  }

  /** Some call begins on top of what an earlier one left open. */
  predicate Resumes<D>(b: Books<D>, calls: seq<Call<D>>, begun: seq<bool>)
    requires |begun| == |calls|
    decreases |calls|
  {
    |calls| > 0 &&
    ((begun[0] && Outlives(calls[0].env) && b.pending.Some?) ||
     Resumes(Booked(b, begun[0], calls[0].requests, calls[0].env), calls[1..], begun[1..]))
  }

  /** The data after those calls that begin, succeed and do not lose their COMMIT, whole calls only. */
  function WholeCalls<D>(d: D, calls: seq<Call<D>>, begun: seq<bool>): D
    requires |begun| == |calls|
    decreases |calls|
  {
    if |calls| == 0 then d
    else
      var (work, end) := ApplyAll(d, calls[0].requests, 0);
      WholeCalls(if begun[0] && end.Success? && !calls[0].env.finish.Lost? then work else d, calls[1..], begun[1..])
  }

  /** Over any run of calls the data is what the calls book one after the other, and it is the work of
      whole committed calls and nothing else unless some call begins on top of a leftover. */
  lemma {:induction false} RunsAreAllOrNothing<D>(x: State<D>, calls: seq<Call<D>>)
    requires AtRest(x)
    ensures var begun, y := Begun(x, calls), RunCalls(x, calls);
      && AtRest(y) && BooksOf(y) == BookedAll(BooksOf(x), calls, begun)
      && (!Resumes(BooksOf(x), calls, begun) ==> y.server.committed == WholeCalls(x.server.committed, calls, begun))
    decreases |calls|
  {
    hide UpdateAccounts, Opened, ApplyAll, AtRest;
    if |calls| > 0 {
      CallIsBooked(x, calls[0].requests, calls[0].env);
      RunsAreAllOrNothing(UpdateAccounts(x, calls[0].requests, calls[0].env).0, calls[1..]);
    }
  }

  // ---------------------------------------------------------------- a leftover that is committed

  const ANSWERS := Look(true, true, Connected)

  function Answers(i: nat): Look { ANSWERS }

  /** Everything works, but for ROLLBACK. */
  const ENV := Env(ANSWERS, true, ANSWERS, true, Answers, Committed, ANSWERS, false)

  function Increment(d: int): (int, Ending) { (d + 1, Success) }

  function Fail(d: int): (int, Ending) { (d, Failure) }

  /** A call from a new client fails at its second stage, and an empty call behind it commits the first. */
  lemma FailedWorkIsCommitted()
    ensures var (x, r) := UpdateAccounts(State(NEW_CLIENT, Server(0, map[])), [Increment, Fail], ENV);
      var (y, q) := UpdateAccounts(x, [], ENV);
      r == Failed && x.server.committed == 0 && q == Updated && y.server.committed == 1
  {
    hide UpdateAccounts, Caught;
    var start := State(NEW_CLIENT, Server(0, map[]));
    var requests: seq<Request<int>> := [Increment, Fail];
    assert ApplyAll(1, requests, 1) == (1, Failure);
    CallIsBooked(start, requests, ENV);
    var x := UpdateAccounts(start, requests, ENV).0;
    CallIsBooked(x, [], ENV);
  }
}
