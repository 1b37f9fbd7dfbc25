/** The id generator and the session registry as objects; each method is one section under the registry's lock. */
module SessionTables {
  import opened Sessions
  import RateLimit

  class IdGenerator {
    const min: nat
    const max: nat
    var counter: nat
    var freeList: set<nat>

    ghost function View(): Pool
      reads this
    {
      Pool(min, max, counter, freeList)
    }

    /** The server's constructor throws for an empty range of ids. */
    constructor (min: nat, max: nat)
      requires min <= max
      ensures View() == NewPool(min, max)
    {
      this.min, this.max, counter, freeList := min, max, min, {};
    }

    method GetNext() returns (ok: bool, out: nat)
      modifies this
      ensures ok == !Exhausted(old(View()))
      ensures if ok then CanIssue(old(View()), out) && View() == Issue(old(View()), out) else View() == old(View())
    {
      out := 0;
      if freeList != {} {
        var first :| first in freeList;
        freeList := freeList - {first};
        return true, first;
      }
      if counter < max {
        out := counter;
        counter := counter + 1;
        return true, out;
      }
      ok := false;
    }

    method GiveBack(id: nat)
      modifies this
      ensures View() == Free(old(View()), id)
    {
      if min <= id <= max && id !in freeList {
        freeList := freeList + {id};
      }
    }
  }

  /** What a lock section of `AdoptSid` tells its caller; in the gap the victim is disconnected. */
  datatype Verdict = Adopted(ok: bool) | Gap(victim: Handle, move: Move)

  /** The rate-limit tables after the state of two sessions was cleared. */
  function Cleared(t: RateLimit.Limiter, oldSid: nat, newSid: nat): RateLimit.Limiter {
    RateLimit.ClearSession(RateLimit.ClearSession(t, oldSid), newSid)
  }

  class Registry {
    const ids: IdGenerator
    const limiter: RateLimit.RateLimiter
    var sessions: map<nat, Handle>
    var sids: map<Handle, nat>          // the id each session object carries
    ghost var moves: multiset<Move>     // calls of `AdoptSid` that are in their gap

    ghost function View(): Server
      reads this, ids
    {
      Server(ids.View(), sessions, sids, moves)
    }

    constructor (min: nat, max: nat)
      requires min <= max
      ensures View() == NewServer(min, max) && limiter.View() == RateLimit.NEW_LIMITER
      ensures fresh(ids) && fresh(limiter)
    {
      ids := new IdGenerator(min, max);
      limiter := new RateLimit.RateLimiter();
      sessions, sids, moves := map[], map[], multiset{};
    }

    /** A connection is accepted: a session object is created if there is an id for it. */
    method AcceptSession(h: Handle) returns (ok: bool, id: nat)
      requires h !in sids
      modifies this, ids
      ensures ok == !Exhausted(old(ids.View()))
      ensures ok ==> Enabled(old(View()), Accept(h, id)) && View() == Step(old(View()), Accept(h, id))
      ensures !ok ==> View() == old(View())
    {
      ok, id := ids.GetNext();
      if ok {
        sids := sids[h := id];
      }
    }

    method AddSession(h: Handle) returns (ok: bool)
      requires h in sids
      modifies this
      ensures View() == Step(old(View()), Add(h))
      ensures ok <==> sids[h] != 0 && sids[h] !in old(sessions)
    {
      var id := sids[h];
      if id == 0 || id in sessions {
        return false;
      }
      sessions := sessions[id := h];
      ok := true;
    }

    /** `RemoveSession`, called by the disconnect handler of `h`, and the clearing of the
        rate-limit state after it. */
    method RemoveSession(ghost h: Handle, id: nat)
      modifies this, ids, limiter
      ensures View() == Step(old(View()), Remove(h, id))
      ensures limiter.View() == if id != 0 && id in old(sessions) then RateLimit.ClearSession(old(limiter.View()), id)
                                else old(limiter.View())
    {
      if id == 0 || id !in sessions {
        return;
      }
      sessions := sessions - {id};
      ids.GiveBack(id);
      limiter.ClearPacketRateLimitSessionState(id);
    }

    /** `AdoptSid` up to its end, or up to where it gives up the lock to disconnect a victim. */
    method AdoptSid(oldSid: nat, newSid: nat, evictExisting: bool) returns (verdict: Verdict)
      modifies this, ids, limiter
      ensures View() == Step(old(View()), Adopt(oldSid, newSid, evictExisting))
      ensures verdict == Adopted(true) <==>
              newSid != 0 && oldSid != 0 && (newSid == oldSid || (oldSid in old(sessions) && newSid !in old(sessions)))
      ensures verdict.Gap? <==> CourseOf(old(View()), oldSid, newSid, evictExisting).Evicting?
      ensures verdict.Gap? ==> verdict == Gap(old(sessions)[newSid], Move(oldSid, newSid))
      ensures limiter.View() == if CourseOf(old(View()), oldSid, newSid, evictExisting).Renaming?
                                then Cleared(old(limiter.View()), oldSid, newSid) else old(limiter.View())
    {
      if newSid == 0 || oldSid == 0 {
        return Adopted(false);
      }
      if newSid == oldSid {
        return Adopted(true);
      }
      if oldSid !in sessions {
        return Adopted(false);
      }
      if newSid in sessions {
        if !evictExisting {
          return Adopted(false);
        }
        verdict := Gap(sessions[newSid], Move(oldSid, newSid));
        sessions := sessions - {newSid};
        moves := moves + multiset{Move(oldSid, newSid)};
        return;
      }
      Rebind(oldSid, newSid);
      verdict := Adopted(true);
    }

    /** `AdoptSid` from where it has the lock again. */
    method ResumeAdoptSid(move: Move) returns (ok: bool)
      requires move in moves
      modifies this, ids, limiter
      ensures View() == Step(old(View()), Resume(move)) && (ok <==> move.oldSid in old(sessions))
      ensures limiter.View() == if ok then Cleared(old(limiter.View()), move.oldSid, move.newSid) else old(limiter.View())
    {
      moves := moves - multiset{move};
      if move.oldSid !in sessions {
        return false;
      }
      Rebind(move.oldSid, move.newSid);
      ok := true;
    }

    /** Move the entry, give the old id back, and clear the rate-limit state of both ids. */
    method Rebind(oldSid: nat, newSid: nat)
      requires oldSid in sessions
      modifies this, ids, limiter
      ensures View() == Rename(old(View()), oldSid, newSid)
      ensures limiter.View() == Cleared(old(limiter.View()), oldSid, newSid)
    {
      var moving := sessions[oldSid];
      sessions := sessions - {oldSid};
      sessions := sessions[newSid := moving];
      sids := sids[moving := newSid];
      ids.GiveBack(oldSid);
      limiter.ClearPacketRateLimitSessionState(oldSid);
      limiter.ClearPacketRateLimitSessionState(newSid);
    }
  }
}
