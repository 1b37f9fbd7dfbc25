/** Session ids: the allocator, the registry of sessions, and adopting another session's id. */
module Sessions {

  // ------------------------------------------------------------- the allocator

  datatype Pool = Pool(min: nat, max: nat, counter: nat, free: set<nat>)

  function NewPool(min: nat, max: nat): Pool {
    Pool(min, max, min, {})
  }

  /** `getNext` may hand out `id`: any free id first, the counter if there is none. */
  predicate CanIssue(p: Pool, id: nat) {
    if p.free != {} then id in p.free else p.counter < p.max && id == p.counter
  }

  predicate Exhausted(p: Pool) {
    p.free == {} && p.counter >= p.max
  }

  function Issue(p: Pool, id: nat): Pool
    requires CanIssue(p, id)
  {
    if p.free != {} then p.(free := p.free - {id}) else p.(counter := p.counter + 1)
  }

  function Free(p: Pool, id: nat): Pool {
    if p.min <= id <= p.max then p.(free := p.free + {id}) else p
  }

  predicate Between(lo: nat, id: nat, hi: nat) {
    lo <= id < hi
  }

  /** The free ids and the held ones are, without overlap, the ids issued so far. */
  ghost predicate Partition(p: Pool, held: set<nat>) {
    && p.min <= p.counter <= p.max
    && forall id: nat :: Between(p.min, id, p.counter) == (id in p.free || id in held) && !(id in p.free && id in held)
  }

  lemma NewPartition(min: nat, max: nat)
    requires min <= max
    ensures Partition(NewPool(min, max), {})
  {
  }

  /** An id is issued only while nobody holds it. */
  lemma IssueKeepsPartition(p: Pool, held: set<nat>, id: nat)
    requires Partition(p, held) && CanIssue(p, id)
    ensures id !in held && p.min <= id < p.max && Partition(Issue(p, id), held + {id})
  {
    assert Between(p.min, id, p.counter) == (id in p.free || id in held);
  }

  /** Giving an id back keeps the partition exactly if it is not one still to be issued. */
  lemma FreeKeepsPartition(p: Pool, held: set<nat>, id: nat)
    requires Partition(p, held)
    ensures Partition(Free(p, id), held - {id}) <==> !(p.counter <= id <= p.max)
  {
    var q := Free(p, id);
    assert Between(p.min, id, p.counter) == (id in p.free || id in held);
    assert q.counter == p.counter && q.min == p.min;
    if p.counter <= id <= p.max {
      assert id in q.free && !Between(q.min, id, q.counter);
    } else {
      forall x: nat
        ensures Between(q.min, x, q.counter) == (x in q.free || x in held - {id}) && !(x in q.free && x in held - {id})
      {
        assert Between(p.min, x, p.counter) == (x in p.free || x in held) && !(x in p.free && x in held);
      }
    }
  }

  /** `getNext` fails exactly when every id it could ever issue is held. */
  lemma ExhaustedMeansAllHeld(p: Pool, held: set<nat>)
    requires Partition(p, held)
    ensures Exhausted(p) <==> forall id: nat :: Between(p.min, id, p.max) ==> id in held
  {
    assert p.counter < p.max ==> Between(p.min, p.counter, p.max) && !Between(p.min, p.counter, p.counter);
    assert forall id: nat :: Between(p.min, id, p.counter) ==> Between(p.min, id, p.max);
    if !Exhausted(p) {
      var id := if p.free == {} then p.counter else var x :| x in p.free; x;
      assert Between(p.min, id, p.counter) == (id in p.free || id in held) && !(id in p.free && id in held);
    }
  }

  /** The allocator may still hand the id out: it is free, or the counter has not passed it. (`free`
      takes an id up to and including the maximum, which `getNext` itself never reaches.) */
  predicate Issuable(p: Pool, id: nat) {
    id in p.free || p.counter <= id <= p.max
  }

  lemma FreeIssues(p: Pool, id: nat, other: nat)
    requires other != id
    ensures Issuable(Free(p, id), other) <==> Issuable(p, other)
  {
  }

  lemma IssueIssues(p: Pool, id: nat, other: nat)
    requires CanIssue(p, id) && !Issuable(p, other)
    ensures !Issuable(Issue(p, id), other) && other != id
  {
  }

  // --------------------------------------------------------------- the registry

  type Handle = nat

  /** A call of `AdoptSid` that has evicted the holder of `newSid` and waits for the lock again. */
  datatype Move = Move(oldSid: nat, newSid: nat)

  /** `sids` is what each session object says its id is; `moves` are the calls in the gap. */
  datatype Server = Server(ids: Pool, sessions: map<nat, Handle>, sids: map<Handle, nat>, moves: multiset<Move>)

  /** One lock section each. `Accept` creates the session object `h` with an id of the allocator;
      `Remove` is the disconnect handler of `h` removing the id it read from `h`, then or earlier. */
  datatype Event =
    | Accept(h: Handle, id: nat)
    | Add(h: Handle)
    | Remove(h: Handle, id: nat)
    | Adopt(oldSid: nat, newSid: nat, evict: bool)
    | Resume(move: Move)

  function NewServer(min: nat, max: nat): Server {
    Server(NewPool(min, max), map[], map[], multiset{})
  }

  predicate Enabled(s: Server, e: Event) {
    match e
    case Accept(h, id) => h !in s.sids && CanIssue(s.ids, id)
    case Add(h) => h in s.sids
    case Resume(m) => m in s.moves
    case _ => true
  }

  function Unregister(s: Server, id: nat): Server {
    if id == 0 || id !in s.sessions then s else s.(sessions := s.sessions - {id}, ids := Free(s.ids, id))
  }

  /** The session registered as `oldSid` takes the id `newSid` and gives its own back. */
  function Rename(s: Server, oldSid: nat, newSid: nat): Server
    requires oldSid in s.sessions
  {
    var h := s.sessions[oldSid];
    s.(sessions := (s.sessions - {oldSid})[newSid := h], sids := s.sids[h := newSid], ids := Free(s.ids, oldSid))
  }

  /** What `AdoptSid` does before it gives up the lock, if it does. */
  datatype Course = Nothing | Evicting | Renaming

  function CourseOf(s: Server, oldSid: nat, newSid: nat, evict: bool): Course {
    if newSid == 0 || oldSid == 0 || newSid == oldSid || oldSid !in s.sessions then Nothing
    else if newSid !in s.sessions then Renaming
    else if evict then Evicting else Nothing
  }

  function Step(s: Server, e: Event): Server
    requires Enabled(s, e)
  {
    match e
    case Accept(h, id) => s.(ids := Issue(s.ids, id), sids := s.sids[h := id])
    case Add(h) =>
      var id := s.sids[h];
      if id == 0 || id in s.sessions then s else s.(sessions := s.sessions[id := h])
    case Remove(_, id) => Unregister(s, id)
    case Adopt(oldSid, newSid, evict) =>
      (match CourseOf(s, oldSid, newSid, evict)
       case Nothing => s
       case Evicting => s.(sessions := s.sessions - {newSid}, moves := s.moves + multiset{Move(oldSid, newSid)})
       case Renaming => Rename(s, oldSid, newSid))
    case Resume(m) =>
      var t := s.(moves := s.moves - multiset{m});
      if m.oldSid in t.sessions then Rename(t, m.oldSid, m.newSid) else t
  }

  predicate Runs(s: Server, es: seq<Event>)
    decreases |es|
  {
    |es| == 0 || (Enabled(s, es[0]) && Runs(Step(s, es[0]), es[1..]))
  }

  function Run(s: Server, es: seq<Event>): Server
    requires Runs(s, es)
    decreases |es|
  {
    if |es| == 0 then s else Run(Step(s, es[0]), es[1..])
  }

  /** Every entry holds a session whose id is the entry's key, and the key is not zero. */
  ghost predicate Registered(s: Server) {
    && (forall k :: k in s.sessions ==> k != 0 && s.sessions[k] in s.sids && s.sids[s.sessions[k]] == k)
    && (forall m :: m in s.moves ==> m.newSid != 0 && m.oldSid != m.newSid)
  }

  lemma RenameKeepsRegistered(s: Server, oldSid: nat, newSid: nat)
    requires Registered(s) && oldSid in s.sessions && newSid != 0
    ensures Registered(Rename(s, oldSid, newSid))
  {
    var t, h := Rename(s, oldSid, newSid), s.sessions[oldSid];
    forall k | k in t.sessions ensures k != 0 && t.sessions[k] in t.sids && t.sids[t.sessions[k]] == k {
      if k != newSid {
        assert k in s.sessions && t.sessions[k] == s.sessions[k] && s.sessions[k] != h;
      }
    }
  }

  lemma AdoptKeepsRegistered(s: Server, oldSid: nat, newSid: nat, evict: bool)
    requires Registered(s)
    ensures Registered(Step(s, Adopt(oldSid, newSid, evict)))
  {
    hide Rename;
    if CourseOf(s, oldSid, newSid, evict).Renaming? {
      RenameKeepsRegistered(s, oldSid, newSid);
    }
  }

  lemma ResumeKeepsRegistered(s: Server, m: Move)
    requires Registered(s) && m in s.moves
    ensures Registered(Step(s, Resume(m)))
  {
    hide Rename;
    var t := s.(moves := s.moves - multiset{m});
    assert Registered(t);
    if m.oldSid in t.sessions {
      RenameKeepsRegistered(t, m.oldSid, m.newSid);
    }
  }

  lemma StepKeepsRegistered(s: Server, e: Event)
    requires Registered(s) && Enabled(s, e)
    ensures Registered(Step(s, e))
  {
    match e
    case Adopt(oldSid, newSid, evict) => AdoptKeepsRegistered(s, oldSid, newSid, evict);
    case Resume(m) => ResumeKeepsRegistered(s, m);
    case _ =>
  }

  lemma {:induction false} RunKeepsRegistered(s: Server, es: seq<Event>)
    requires Registered(s) && Runs(s, es)
    ensures Registered(Run(s, es))
    decreases |es|
  {
    hide Registered, Step, Enabled;
    if |es| > 0 {
      StepKeepsRegistered(s, es[0]);
      RunKeepsRegistered(Step(s, es[0]), es[1..]);
    }
  }

  /** Over every interleaving of accepts, adds, removals and adoptions, the unlocked gap
      of an eviction included: a registry entry names a session that has the entry's
      non-zero id, so no two entries name one session. */
  lemma RegistrySafety(min: nat, max: nat, es: seq<Event>)
    requires Runs(NewServer(min, max), es)
    ensures var s := Run(NewServer(min, max), es);
      && (forall k :: k in s.sessions ==> k != 0 && s.sessions[k] in s.sids && s.sids[s.sessions[k]] == k)
      && (forall j, k :: j in s.sessions && k in s.sessions && s.sessions[j] == s.sessions[k] ==> j == k)
  {
    hide Runs, Run;
    RunKeepsRegistered(NewServer(min, max), es);
  }

  // ------------------------------------------------------ what an adoption comes to

  /** Only the session registered as `oldSid` has changed: it is registered as `newSid`, carries that id,
      and its old id is free if the allocator takes it. */
  ghost predicate Moved(s: Server, t: Server, oldSid: nat, newSid: nat) {
    && oldSid in s.sessions
    && t.sessions.Keys == s.sessions.Keys - {oldSid} + {newSid}
    && t.sessions[newSid] == s.sessions[oldSid]
    && (forall k :: k in s.sessions && k != oldSid && k != newSid ==> t.sessions[k] == s.sessions[k])
    && t.sids.Keys == s.sids.Keys
    && (forall h :: h in s.sids ==> t.sids[h] == if h == s.sessions[oldSid] then newSid else s.sids[h])
    && t.ids.counter == s.ids.counter && t.ids.min == s.ids.min && t.ids.max == s.ids.max
    && (forall id :: id in t.ids.free <==> id in s.ids.free || (id == oldSid && s.ids.min <= id <= s.ids.max))
  }

  /** An adoption is refused, or has nothing to do, without any change: for zero, for the same id, for an
      unknown session, and for a taken id unless the holder is to be evicted. To an id that is not taken
      the session moves at once. Otherwise the holder's entry goes, and the session moves when the
      call comes back, if it is still there. */
  lemma AdoptionComesTo(s: Server, oldSid: nat, newSid: nat, evict: bool)
    requires Registered(s)
    ensures var t := Step(s, Adopt(oldSid, newSid, evict));
      if oldSid == 0 || newSid == 0 || oldSid == newSid || oldSid !in s.sessions then t == s
      else if newSid !in s.sessions then Moved(s, t, oldSid, newSid) && t.moves == s.moves
      else if !evict then t == s
      else t == s.(sessions := s.sessions - {newSid}, moves := s.moves + multiset{Move(oldSid, newSid)})
  {
  }

  lemma ResumptionComesTo(s: Server, m: Move)
    requires Registered(s) && m in s.moves
    ensures var t := Step(s, Resume(m));
      && t.moves == s.moves - multiset{m}
      && if m.oldSid in s.sessions then Moved(s, t, m.oldSid, m.newSid) else t == s.(moves := t.moves)
  {
  }

  /** Accepted with an id, added, and removed: the session is registered under its id unless that is zero or
      taken, nobody else is touched, and after its removal the allocator can issue the id again. */
  lemma LifeOfSession(s: Server, h: Handle, id: nat)
    requires Registered(s) && h !in s.sids && CanIssue(s.ids, id) && id <= s.ids.max && s.ids.min <= id
    ensures Enabled(s, Accept(h, id)) && Enabled(Step(s, Accept(h, id)), Add(h))
    ensures var t := Step(Step(s, Accept(h, id)), Add(h));
      && t.sids == s.sids[h := id]
      && t.sessions == (if id == 0 || id in s.sessions then s.sessions else s.sessions[id := h])
      && id !in t.ids.free
      && (id != 0 && id !in s.sessions ==>
            var u := Step(t, Remove(h, id)); u.sessions == s.sessions && CanIssue(u.ids, id) && u.sids == t.sids)
  {
    var t := Step(Step(s, Accept(h, id)), Add(h));
    assert id !in s.sessions ==> s.sessions[id := h] - {id} == s.sessions;
  }

  // ------------------------------------------------- who stays registered, and when

  /** `h` is registered under the id it carries. */
  predicate Present(s: Server, h: Handle) {
    h in s.sids && s.sids[h] in s.sessions && s.sessions[s.sids[h]] == h
  }

  /** The event strikes `h` off: a removal of its id, an eviction of its id, or an adoption that
      comes back to an id that `h` has taken in the gap. */
  predicate StrikesOff(s: Server, e: Event, h: Handle)
    requires Enabled(s, e) && Present(s, h)
  {
    match e
    case Remove(_, id) => id == s.sids[h]
    case Adopt(oldSid, newSid, evict) => CourseOf(s, oldSid, newSid, evict).Evicting? && newSid == s.sids[h]
    case Resume(m) => m.newSid == s.sids[h] && m.oldSid in s.sessions
    case _ => false
  }

  lemma RenameMoves(s: Server, oldSid: nat, newSid: nat, h: Handle)
    requires Registered(s) && oldSid in s.sessions && newSid != 0 && oldSid != newSid && Present(s, h)
    ensures Present(Rename(s, oldSid, newSid), h) <==> s.sids[h] != newSid
  {
  }

  /** A registered session is registered after an event exactly if the event does not strike it off. */
  lemma StaysRegistered(s: Server, e: Event, h: Handle)
    requires Registered(s) && Enabled(s, e) && Present(s, h)
    ensures Present(Step(s, e), h) <==> !StrikesOff(s, e, h)
  {
    hide Rename;
    match e
    case Adopt(oldSid, newSid, evict) =>
      if CourseOf(s, oldSid, newSid, evict).Renaming? {
        RenameMoves(s, oldSid, newSid, h);
      }
    case Resume(m) =>
      var t := s.(moves := s.moves - multiset{m});
      assert Registered(t) && Present(t, h);
      if m.oldSid in t.sessions {
        RenameMoves(t, m.oldSid, m.newSid, h);
      }
    case _ =>
  }

  /** The sessions that ought to be registered: added, not yet gone by their own handler, not evicted. */
  function LiveAfter(s: Server, live: set<Handle>, e: Event): set<Handle>
    requires Enabled(s, e)
  {
    match e
    case Add(h) => if s.sids[h] == 0 || s.sids[h] in s.sessions then live else live + {h}
    case Remove(h, _) => live - {h}
    case Adopt(oldSid, newSid, evict) =>
      if CourseOf(s, oldSid, newSid, evict).Evicting? then live - {s.sessions[newSid]} else live
    case _ => live
  }

  /** Who holds ids after an event: an id is held from when it is issued until it is given back. */
  function HeldAfter(s: Server, held: set<nat>, e: Event): set<nat>
    requires Enabled(s, e)
  {
    match e
    case Accept(_, id) => held + {id}
    case Remove(_, id) => if id == 0 || id !in s.sessions then held else held - {id}
    case Adopt(oldSid, newSid, evict) => if CourseOf(s, oldSid, newSid, evict).Renaming? then held - {oldSid} else held
    case Resume(m) => if m.oldSid in s.sessions then held - {m.oldSid} else held
    case _ => held
  }

  /** Every live session is registered, and no registered id can be issued again. */
  ghost predicate Kept(s: Server, live: set<Handle>, held: set<nat>) {
    && (forall h :: h in live ==> Present(s, h))
    && Partition(s.ids, held)
    && (forall k :: k in s.sessions ==> !Issuable(s.ids, k))
  }

  /** A removal hits its own session's entry, or that of a session that is gone; an adoption does
      not come back to an id that a live session has taken in the gap. */
  predicate ProperSessions(s: Server, live: set<Handle>, e: Event)
    requires Enabled(s, e)
  {
    match e
    case Remove(h, id) => id != 0 && id in s.sessions ==> s.sessions[id] == h || s.sessions[id] !in live
    case Resume(m) => m.oldSid in s.sessions && m.newSid in s.sessions ==> s.sessions[m.newSid] !in live
    case _ => true
  }

  /** An id that gets registered, by an add or an adoption, is none that the allocator may still issue. */
  predicate ProperIds(s: Server, e: Event)
    requires Enabled(s, e)
  {
    match e
    case Add(h) => s.sids[h] == 0 || s.sids[h] in s.sessions || !Issuable(s.ids, s.sids[h])
    case Adopt(oldSid, newSid, evict) => CourseOf(s, oldSid, newSid, evict).Renaming? ==> !Issuable(s.ids, newSid)
    case Resume(m) => m.oldSid in s.sessions ==> !Issuable(s.ids, m.newSid)
    case _ => true
  }

  predicate Proper(s: Server, live: set<Handle>, e: Event)
    requires Enabled(s, e)
  {
    ProperSessions(s, live, e) && ProperIds(s, e)
  }

  lemma SessionsStep(s: Server, live: set<Handle>, e: Event)
    requires Registered(s) && Enabled(s, e) && forall h :: h in live ==> Present(s, h)
    ensures (forall h :: h in LiveAfter(s, live, e) ==> Present(Step(s, e), h)) <==> ProperSessions(s, live, e)
  {
    hide Step, Registered;
    var after := LiveAfter(s, live, e);
    forall h | h in live ensures Present(Step(s, e), h) <==> !StrikesOff(s, e, h) {
      StaysRegistered(s, e, h);
    }
    forall h | h in after && h !in live ensures Present(Step(s, e), h) {
      AddedIsPresent(s, e);
    }
    if !ProperSessions(s, live, e) {
      var v := if e.Remove? then s.sessions[e.id] else s.sessions[e.move.newSid];
      assert v in live && v in after && Present(s, v);
      CarriesItsKey(s, if e.Remove? then e.id else e.move.newSid);
      assert StrikesOff(s, e, v);
    } else {
      forall h | h in after && h in live ensures !StrikesOff(s, e, h) {
        assert Present(s, h);
        NotStruckOff(s, live, e, h);
      }
    }
  }

  lemma AddedIsPresent(s: Server, e: Event)
    requires Enabled(s, e) && e.Add? && s.sids[e.h] != 0 && s.sids[e.h] !in s.sessions
    ensures Present(Step(s, e), e.h)
  {
  }

  lemma CarriesItsKey(s: Server, k: nat)
    requires Registered(s) && k in s.sessions
    ensures s.sessions[k] in s.sids && s.sids[s.sessions[k]] == k
  {
  }

  lemma NotStruckOff(s: Server, live: set<Handle>, e: Event, h: Handle)
    requires Registered(s) && Enabled(s, e) && Present(s, h) && h in live && h in LiveAfter(s, live, e)
    requires ProperSessions(s, live, e)
    ensures !StrikesOff(s, e, h)
  {
  }

  /** Registered ids that cannot be issued again. */
  ghost predicate Spent(s: Server) {
    forall k :: k in s.sessions ==> !Issuable(s.ids, k)
  }

  /** Giving back a registered id keeps the partition; of the other ids none becomes issuable. */
  lemma SpentAfterFree(s: Server, held: set<nat>, id: nat)
    requires Partition(s.ids, held) && Spent(s) && id in s.sessions
    ensures Partition(Free(s.ids, id), held - {id})
    ensures forall k :: k != id ==> (Issuable(Free(s.ids, id), k) <==> Issuable(s.ids, k))
  {
    hide Partition;
    FreeKeepsPartition(s.ids, held, id);
    forall k | k != id ensures Issuable(Free(s.ids, id), k) <==> Issuable(s.ids, k) {
      FreeIssues(s.ids, id, k);
    }
  }

  lemma SpentAfterRename(s: Server, oldSid: nat, newSid: nat)
    requires oldSid in s.sessions && oldSid != newSid && Spent(s)
    requires forall k :: k != oldSid ==> (Issuable(Free(s.ids, oldSid), k) <==> Issuable(s.ids, k))
    ensures Spent(Rename(s, oldSid, newSid)) <==> !Issuable(s.ids, newSid)
  {
    hide Issuable, Free;
    var t := Rename(s, oldSid, newSid);
    assert newSid in t.sessions;
  }

  lemma IdsStep(s: Server, held: set<nat>, e: Event)
    requires Registered(s) && Enabled(s, e) && Partition(s.ids, held) && Spent(s)
    ensures Partition(Step(s, e).ids, HeldAfter(s, held, e)) && (Spent(Step(s, e)) <==> ProperIds(s, e))
  {
    hide Partition, Issuable, Free, Issue, CanIssue;
    match e
    case Accept(h, id) =>
      IssueKeepsPartition(s.ids, held, id);
      forall k | k in s.sessions ensures !Issuable(Issue(s.ids, id), k) {
        IssueIssues(s.ids, id, k);
      }
    case Add(h) =>
      assert s.sids[h] in Step(s, e).sessions || s.sids[h] == 0;
    case Remove(h, id) =>
      if id != 0 && id in s.sessions {
        SpentAfterFree(s, held, id);
      }
    case Adopt(oldSid, newSid, evict) =>
      if CourseOf(s, oldSid, newSid, evict).Renaming? {
        SpentAfterFree(s, held, oldSid);
        SpentAfterRename(s, oldSid, newSid);
      }
    case Resume(m) =>
      if m.oldSid in s.sessions {
        var t := s.(moves := s.moves - multiset{m});
        SpentAfterFree(t, held, m.oldSid);
        SpentAfterRename(t, m.oldSid, m.newSid);
      }
  }

  /** After an event sessions and ids are kept exactly if the event is proper. */
  lemma StepKeepsExactly(s: Server, live: set<Handle>, held: set<nat>, e: Event)
    requires Registered(s) && Enabled(s, e) && Kept(s, live, held)
    ensures Kept(Step(s, e), LiveAfter(s, live, e), HeldAfter(s, held, e)) <==> Proper(s, live, e)
  {
    hide Registered, Step, Enabled, Partition, Present, Issuable, LiveAfter, HeldAfter, ProperSessions, ProperIds;
    SessionsStep(s, live, e);
    IdsStep(s, held, e);
  }

  ghost predicate KeptThroughout(s: Server, live: set<Handle>, held: set<nat>, es: seq<Event>)
    requires Runs(s, es)
    decreases |es|
  {
    && Kept(s, live, held)
    && (|es| > 0 ==> KeptThroughout(Step(s, es[0]), LiveAfter(s, live, es[0]), HeldAfter(s, held, es[0]), es[1..]))
  }

  predicate ProperRun(s: Server, live: set<Handle>, es: seq<Event>)
    requires Runs(s, es)
    decreases |es|
  {
    |es| == 0 || (Proper(s, live, es[0]) && ProperRun(Step(s, es[0]), LiveAfter(s, live, es[0]), es[1..]))
  }

  lemma {:induction false} RunKeepsExactly(s: Server, live: set<Handle>, held: set<nat>, es: seq<Event>)
    requires Registered(s) && Kept(s, live, held) && Runs(s, es)
    ensures KeptThroughout(s, live, held, es) <==> ProperRun(s, live, es)
    decreases |es|
  {
    hide Registered, Kept, Proper, Step, Enabled, LiveAfter, HeldAfter;
    if |es| > 0 {
      StepKeepsRegistered(s, es[0]);
      StepKeepsExactly(s, live, held, es[0]);
      if Proper(s, live, es[0]) {
        RunKeepsExactly(Step(s, es[0]), LiveAfter(s, live, es[0]), HeldAfter(s, held, es[0]), es[1..]);
      }
    }
  }

  lemma NewIsKept(min: nat, max: nat)
    requires min <= max
    ensures Registered(NewServer(min, max)) && Kept(NewServer(min, max), {}, {})
  {
    NewPartition(min, max);
  }

  /** In every run from a new server: at all times every live session is registered under its id,
      the free and the held ids partition the issued ones, and no registered id can be issued,
      exactly if every removal hits its own session's entry (or that of a session that is gone),
      no adoption comes back to an id a live session has taken, and no id that the allocator
      may still issue is registered or adopted. */
  lemma SessionsKept(min: nat, max: nat, es: seq<Event>)
    requires min <= max && Runs(NewServer(min, max), es)
    ensures KeptThroughout(NewServer(min, max), {}, {}, es) <==> ProperRun(NewServer(min, max), {}, es)
  {
    hide Runs, KeptThroughout, ProperRun;
    NewIsKept(min, max);
    RunKeepsExactly(NewServer(min, max), {}, {}, es);
  }

  function LiveAt(s: Server, live: set<Handle>, es: seq<Event>): set<Handle>
    requires Runs(s, es)
    decreases |es|
  {
    if |es| == 0 then live else LiveAt(Step(s, es[0]), LiveAfter(s, live, es[0]), es[1..])
  }

  function HeldAt(s: Server, held: set<nat>, es: seq<Event>): set<nat>
    requires Runs(s, es)
    decreases |es|
  {
    if |es| == 0 then held else HeldAt(Step(s, es[0]), HeldAfter(s, held, es[0]), es[1..])
  }

  lemma {:induction false} KeptAtEnd(s: Server, live: set<Handle>, held: set<nat>, es: seq<Event>)
    requires Runs(s, es) && KeptThroughout(s, live, held, es)
    ensures Kept(Run(s, es), LiveAt(s, live, es), HeldAt(s, held, es))
    decreases |es|
  {
    hide Kept, Step, Enabled, LiveAfter, HeldAfter;
    if |es| > 0 {
      KeptAtEnd(Step(s, es[0]), LiveAfter(s, live, es[0]), HeldAfter(s, held, es[0]), es[1..]);
    }
  }

  /** In every proper run an id that can be issued next is held by nobody, registered for nobody and
      carried by no live session; and none can be issued exactly when all of them are held. */
  lemma AllocatorSafety(min: nat, max: nat, es: seq<Event>)
    requires min <= max && Runs(NewServer(min, max), es) && ProperRun(NewServer(min, max), {}, es)
    ensures var s, held := Run(NewServer(min, max), es), HeldAt(NewServer(min, max), {}, es);
      && Partition(s.ids, held)
      && (forall id :: CanIssue(s.ids, id) ==> id !in held && id !in s.sessions)
      && (forall h :: h in LiveAt(NewServer(min, max), {}, es) ==> h in s.sids && !CanIssue(s.ids, s.sids[h]))
      && (Exhausted(s.ids) <==> forall id: nat :: Between(s.ids.min, id, s.ids.max) ==> id in held)
  {
    hide Runs, Run, ProperRun, KeptThroughout, LiveAt, HeldAt, Partition, Exhausted;
    var start := NewServer(min, max);
    SessionsKept(min, max, es);
    KeptAtEnd(start, {}, {}, es);
    var s, held := Run(start, es), HeldAt(start, {}, es);
    forall id | CanIssue(s.ids, id) ensures id !in held && id !in s.sessions {
      IssueKeepsPartition(s.ids, held, id);
      assert Issuable(s.ids, id) by { BelowMax(s.ids, held, id); }
    }
    ExhaustedMeansAllHeld(s.ids, held);
  }

  lemma BelowMax(p: Pool, held: set<nat>, id: nat)
    requires CanIssue(p, id)
    ensures Issuable(p, id)
  {
  }

  // ------------------------------------------------------- two runs that are not proper

  lemma {:induction false} Chain(ss: seq<Server>, es: seq<Event>)
    requires |ss| == |es| + 1
    requires forall i :: 0 <= i < |es| ==> Goes(ss[i], es[i], ss[i + 1])
    ensures Runs(ss[0], es) && Run(ss[0], es) == ss[|es|]
    decreases |es|
  {
    hide Step, Enabled;
    if |es| > 0 {
      Chain(ss[1..], es[1..]);
    }
  }

  /** One event takes `s` to `t`. */
  predicate Goes(s: Server, e: Event, t: Server) {
    Enabled(s, e) && t == Step(s, e)
  }

  lemma {:induction false} RunOn(s: Server, es: seq<Event>, more: seq<Event>)
    requires Runs(s, es) && Runs(Run(s, es), more)
    ensures Runs(s, es + more) && Run(s, es + more) == Run(Run(s, es), more)
    decreases |es|
  {
    hide Step, Enabled;
    if |es| > 0 {
      RunOn(Step(s, es[0]), es[1..], more);
      assert (es + more)[1..] == es[1..] + more;
    } else {
      assert es + more == more;
    }
  }

  const ONE := Server(Pool(1, 65535, 2, {}), map[1 := 7], map[7 := 1], multiset{})
  const TWO := Server(Pool(1, 65535, 3, {}), map[1 := 7, 2 := 8], map[7 := 1, 8 := 2], multiset{})

  lemma TwoSessions(s: Server, es: seq<Event>)
    requires s == NewServer(1, 65535) && es == [Accept(7, 1), Add(7), Accept(8, 2), Add(8)]
    ensures Runs(s, es) && Run(s, es) == TWO
  {
    hide Runs, Run;
    Chain([s, ONE.(sessions := map[]), ONE, TWO.(sessions := map[1 := 7]), TWO], es);
  }

  const ADOPTED_UNISSUED := Server(Pool(1, 65535, 2, {1}), map[2 := 7], map[7 := 2], multiset{})
  const ISSUED_AGAIN := Server(Pool(1, 65535, 3, {}), map[2 := 7], map[7 := 2, 9 := 1, 5 := 2], multiset{})

  /** From a new server: session 7 adopts the id 2, which was never issued; the allocator issues it to
      session 5, which the registry turns away; and when session 5 goes, the entry it removes is
      that of session 7. */
  lemma AdoptedUnissuedId(s: Server, es: seq<Event>)
    requires s == NewServer(1, 65535)
    requires es == [Accept(7, 1), Add(7), Adopt(1, 2, false), Accept(9, 1), Accept(5, 2), Add(5), Remove(5, 2)]
    ensures Runs(s, es) && Run(s, es) == ISSUED_AGAIN.(ids := Pool(1, 65535, 3, {2}), sessions := map[])
  {
    hide Runs, Run, Goes;
    OneSession();
    Unissued();
    IssuedAgain();
    var s4 := ISSUED_AGAIN.(ids := Pool(1, 65535, 2, {}), sids := map[7 := 2, 9 := 1]);
    var s7 := ISSUED_AGAIN.(ids := Pool(1, 65535, 3, {2}), sessions := map[]);
    Chain([s, ONE.(sessions := map[]), ONE, ADOPTED_UNISSUED, s4, ISSUED_AGAIN, ISSUED_AGAIN, s7], es);
  }

  lemma OneSession()
    ensures Goes(NewServer(1, 65535), Accept(7, 1), ONE.(sessions := map[]))
    ensures Goes(ONE.(sessions := map[]), Add(7), ONE)
  {
  }

  lemma Unissued()
    ensures Goes(ONE, Adopt(1, 2, false), ADOPTED_UNISSUED)
  {
    assert ONE.sessions - {1} == map[];
    assert Rename(ONE, 1, 2) == ADOPTED_UNISSUED;
  }

  lemma IssuedAgain()
    ensures var s4 := ISSUED_AGAIN.(ids := Pool(1, 65535, 2, {}), sids := map[7 := 2, 9 := 1]);
      && Goes(ADOPTED_UNISSUED, Accept(9, 1), s4)
      && Goes(s4, Accept(5, 2), ISSUED_AGAIN)
      && Goes(ISSUED_AGAIN, Add(5), ISSUED_AGAIN)
      && Goes(ISSUED_AGAIN, Remove(5, 2), ISSUED_AGAIN.(ids := Pool(1, 65535, 3, {2}), sessions := map[]))
  {
  }

  const EVICTED := TWO.(sessions := map[1 := 7], moves := multiset{Move(1, 2)})
  const ADOPTED := Server(Pool(1, 65535, 3, {1}), map[2 := 7], map[7 := 2, 8 := 2], multiset{})
  const ORPHANED := ADOPTED.(ids := Pool(1, 65535, 3, {1, 2}), sessions := map[])

  /** From a new server: session 7 adopts the id 2 and evicts session 8; the removal that session 8
      makes when it goes comes late and takes session 7 out of the registry, and the id
      that session 7 carries is issued again. */
  lemma LateRemovalOfVictim(s: Server, first: seq<Event>, more: seq<Event>)
    requires s == NewServer(1, 65535) && first == [Accept(7, 1), Add(7), Accept(8, 2), Add(8)]
    requires more == [Adopt(1, 2, true), Resume(Move(1, 2)), Remove(8, 2), Accept(9, 2)]
    ensures Runs(s, first + more)
    ensures Run(s, first + more) == Server(Pool(1, 65535, 3, {1}), map[], map[7 := 2, 8 := 2, 9 := 2], multiset{})
  {
    hide Runs, Run, Goes;
    VictimEvicted();
    LateRemoval();
    var s4 := ORPHANED.(ids := Pool(1, 65535, 3, {1}), sids := map[7 := 2, 8 := 2, 9 := 2]);
    Chain([TWO, EVICTED, ADOPTED, ORPHANED, s4], more);
    TwoSessions(s, first);
    RunOn(s, first, more);
  }

  lemma VictimEvicted()
    ensures Goes(TWO, Adopt(1, 2, true), EVICTED)
    ensures Goes(EVICTED, Resume(Move(1, 2)), ADOPTED)
  {
    assert TWO.sessions - {2} == map[1 := 7];
    assert EVICTED.sessions - {1} == map[];
    assert EVICTED.moves - multiset{Move(1, 2)} == multiset{};
  }

  lemma LateRemoval()
    ensures Goes(ADOPTED, Remove(8, 2), ORPHANED)
    ensures Goes(ORPHANED, Accept(9, 2), ORPHANED.(ids := Pool(1, 65535, 3, {1}), sids := map[7 := 2, 8 := 2, 9 := 2]))
  {
  }
}
