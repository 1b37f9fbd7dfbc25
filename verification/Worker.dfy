/** A database worker thread: its thread-local connection, cache and transactions. */
module Worker {
  import opened Options
  import opened Connection
  import opened Transactions

  class Thread<D> {
    var session: Option<nat>            // the server session behind `tl_conn`
    var generation: nat
    var inTransaction: bool
    var cacheGeneration: int
    var cache: map<string, Statement>
    var nextSession: nat
    var server: Server<D>               // the database, which notices when a session goes away

    ghost function View(): Client
      reads this
    {
      Client(session, generation, inTransaction, cacheGeneration, cache, nextSession)
    }

    constructor (server: Server<D>)
      ensures View() == NEW_CLIENT && this.server == server
    {
      session, generation, inTransaction, cacheGeneration, cache := None, 0, false, -1, map[];
      nextSession := 0;
      this.server := server;
    }

    ghost function Whole(): State<D>
      reads this
    {
      State(View(), server)
    }

    /** `driver->connect` or `reconnect` brought up a session. */
    method NewSession()
      modifies this
      ensures View() == Fresh(old(View())) && server == old(server)
    {
      session := Some(nextSession);
      nextSession := nextSession + 1;
      generation := generation + 1;
    }

    method CreateConnection(how: ConnectOutcome) returns (threw: bool)
      modifies this
      ensures (View(), threw) == Create(old(View()), how) && server == old(server)
    {
      session := None;
      threw := false;
      match how {
        case ConnectThrows =>
          return true;
        case NullConnection =>
          generation := generation + 1;
        case InvalidConnection =>
          NewSession();
        case SchemaThrows =>
          NewSession();
          threw := true;
        case Connected =>
          NewSession();
      }
    }

    method GetConnection(look: Look) returns (threw: bool)
      modifies this
      ensures (View(), threw) == Connection.GetConnection(old(View()), look)
      ensures (Whole(), threw) == Connect(old(Whole()), look)
    {
      threw := false;
      if session.None? {
        threw := CreateConnection(look.connect);
        return;
      }
      if inTransaction {
        return;
      }
      if !look.valid {
        var stale := session.value;
        if look.reconnects {
          NewSession();
        } else {
          threw := CreateConnection(look.connect);
        }
        if session != Some(stale) {
          server := server.(open := server.open - {stale});
        }
      }
    }

    method Prep(text: string, look: Look, prepares: bool) returns (s: Option<Statement>)
      modifies this
      ensures (View(), s) == Connection.Prep(old(View()), look, prepares, text)
    {
      var threw := GetConnection(look);
      if threw || session.None? {
        return None;
      }
      if cacheGeneration != generation {
        cache := map[];
        cacheGeneration := generation;
      }
      if text in cache {
        return Some(cache[text]);
      }
      if |cache| >= CACHE_LIMIT {
        cache := map[];
      }
      if !prepares {
        return None;
      }
      var statement := Statement(text, session.value);
      cache := cache[text := statement];
      s := Some(statement);
    }

    /** `execute("ROLLBACK")`; a failure is swallowed. */
    method Rollback(on: nat, works: bool)
      modifies this
      ensures Whole() == RollBack(old(Whole()), on, works)
    {
      if works {
        server := server.(open := server.open - {on});
      }
    }

    /** The handler of an exception out of `UpdateAccounts`; the transaction guard is destroyed before it runs. */
    method OnException(env: Env)
      modifies this
      ensures Whole() == Caught(old(Whole()), env)
    {
      inTransaction := false;
      var threw := GetConnection(env.last);
      if !threw && session.Some? {
        Rollback(session.value, env.rollsBack);
      }
    }

    /** Up to and including START TRANSACTION. */
    method Open(env: Env) returns (began: bool)
      modifies this
      ensures (Whole(), began) == Opened(old(Whole()), env)
    {
      var threw := GetConnection(env.first);
      if threw {
        OnException(env);
        return false;
      }
      if session.None? || !env.alive {
        return false;
      }
      threw := GetConnection(env.second);
      if threw || session.None? || !env.starts {
        OnException(env);
        return false;
      }
      server := Start(server, session.value);
      inTransaction := true;
      began := true;
    }

    /** The requests of all stages of all accounts of a batch, in order, in one transaction. An
        exception that is not an SQL exception passes through; the guard is destroyed by it. */
    method UpdateAccounts(requests: seq<Request<D>>, env: Env) returns (r: Outcome)
      modifies this
      ensures (Whole(), r) == Transactions.UpdateAccounts(old(Whole()), requests, env)
    {
      hide Opened, Caught, Connect;
      var began := Open(env);
      if !began || session.None? {
        return Failed;
      }
      var on := session.value;
      ghost var all := RunRequests(Whole(), requests, 0, env.during);
      for i := 0 to |requests|
        invariant RunRequests(Whole(), requests, i, env.during) == all
      {
        var threw := GetConnection(env.during(i));
        var end := Failure;
        if !threw && session.Some? {
          var (d, e) := requests[i](Data(server, session.value));
          server := Write(server, session.value, d);
          end := e;
        }
        if end.Escape? {
          inTransaction := false;
          return Escaped;
        }
        if end.Failure? {
          inTransaction := false;
          Rollback(on, env.rollsBack);
          return Failed;
        }
      }
      match env.finish {
        case Committed =>
          server := Commit(server, on);
          inTransaction := false;
          return Updated;
        case Lost =>
          OnException(env);
        case DoneButLost =>
          server := Commit(server, on);
          OnException(env);
      }
      r := Failed;
    }
  }
}
