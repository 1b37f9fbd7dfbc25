/** The log drain: producers push under a lock and arm, one flag decides who submits
    the drain task, and the task clears the flag under the lock and arms again if work
    arrived. Every interleaving of the atomic steps is a run of the model. */
module LogDrain {

  /** A queued line: the text for the file and the parts for the console. */
  datatype Entry = Entry(text: string, source: string, message: string, color: nat)

  /** Where an activity stands: a call of `Debug` between its push and the end of its
      `Arm`, or a drain task from its submission to its last `Arm`. */
  datatype Pc =
    | Arming           // about to exchange the flag
    | Submitting       // the exchange found the flag clear
    | Queued           // the task waits in the pool
    | Looping          // in the drain loop, about to look at the queue
    | Handling(entry: Entry)
    | Closing          // left the loop, about to clear the flag

  /** `pcs` holds one entry per running activity. `pushed` and `handled` are the history. */
  datatype State = State(flag: bool, queue: seq<Entry>, pcs: multiset<Pc>, pushed: seq<Entry>, handled: seq<Entry>)

  datatype Event =
    | Push(entry: Entry)   // a producer, under the lock
    | Exchange         // `Arm`: isProcessing.exchange(true)
    | Submit           // `Arm`: submit_task
    | Start            // the pool runs the task
    | Take             // the loop, under the lock: pop the front, or leave if empty
    | Handled(entry: Entry) // the entry is written, or its exception is swallowed
    | Abandon          // an exception leaves the loop; the guard still runs
    | Clear            // the guard, under the lock

  function Initial(): State {
    State(false, [], multiset{}, [], [])
  }

  predicate Enabled(s: State, e: Event) {
    match e
    case Push(_) => true
    case Exchange => Arming in s.pcs
    case Submit => Submitting in s.pcs
    case Start => Queued in s.pcs
    case Take => Looping in s.pcs
    case Handled(x) => Handling(x) in s.pcs
    case Abandon => Looping in s.pcs
    case Clear => Closing in s.pcs
  }

  /** One activity moves on, or ends. */
  function Move(s: State, from: Pc, to: seq<Pc>): multiset<Pc> {
    s.pcs - multiset{from} + multiset(to)
  }

  function Step(s: State, e: Event): State
    requires Enabled(s, e)
  {
    match e
    case Push(x) =>
      s.(queue := s.queue + [x], pushed := s.pushed + [x], pcs := s.pcs + multiset{Arming})
    case Exchange =>
      s.(flag := true, pcs := Move(s, Arming, if s.flag then [] else [Submitting]))
    case Submit => s.(pcs := Move(s, Submitting, [Queued]))
    case Start => s.(pcs := Move(s, Queued, [Looping]))
    case Take =>
      if |s.queue| == 0 then s.(pcs := Move(s, Looping, [Closing]))
      else s.(queue := s.queue[1..], pcs := Move(s, Looping, [Handling(s.queue[0])]))
    case Handled(x) => s.(handled := s.handled + [x], pcs := Move(s, Handling(x), [Looping]))
    case Abandon => s.(pcs := Move(s, Looping, [Closing]))
    case Clear =>
      s.(flag := false, pcs := Move(s, Closing, if |s.queue| == 0 then [] else [Arming]))
  }

  predicate Runs(s: State, es: seq<Event>)
    decreases |es|
  {
    |es| == 0 || (Enabled(s, es[0]) && Runs(Step(s, es[0]), es[1..]))
  }

  function Run(s: State, es: seq<Event>): State
    requires Runs(s, es)
    decreases |es|
  {
    if |es| == 0 then s else Run(Step(s, es[0]), es[1..])
  }

  // -------------------------------------------------------------- the invariant

  /** `n` activities about to arm, and one that owns the flag. */
  function Owned(h: Pc, n: nat): multiset<Pc> {
    multiset{h}[Arming := n]
  }

  /** `n` activities about to arm, and nothing else. */
  function Free(n: nat): multiset<Pc> {
    multiset{}[Arming := n]
  }

  ghost predicate Holder(s: State, h: Pc) {
    h != Arming && s.pcs == Owned(h, s.pcs[Arming])
  }

  function InHand(h: Pc): seq<Entry> {
    if h.Handling? then [h.entry] else []
  }

  ghost predicate HolderInv(s: State, h: Pc) {
    Holder(s, h) && s.pushed == s.handled + InHand(h) + s.queue
  }

  ghost predicate FreeInv(s: State) {
    && s.pcs == Free(s.pcs[Arming])
    && (|s.queue| > 0 ==> Arming in s.pcs)
    && s.pushed == s.handled + s.queue
  }

  /** The flag is set exactly while one activity owns it; while nobody does, a non-empty
      queue has an activity about to arm; and nothing is lost, repeated or reordered. */
  ghost predicate Inv(s: State) {
    if s.flag then exists h :: HolderInv(s, h) else FreeInv(s)
  }

  lemma OwnedMoves(h: Pc, to: Pc, n: nat)
    requires h != Arming && to != Arming
    ensures Owned(h, n) - multiset{h} + multiset([to]) == Owned(to, n)
  {
  }

  lemma ArmerComes(h: Pc, n: nat)
    requires h != Arming
    ensures Owned(h, n) + multiset{Arming} == Owned(h, n + 1)
    ensures Free(n) + multiset{Arming} == Free(n + 1)
  {
  }

  lemma ArmerGoes(h: Pc, n: nat)
    requires h != Arming && n > 0
    ensures Owned(h, n) - multiset{Arming} + multiset([]) == Owned(h, n - 1)
    ensures Free(n) - multiset{Arming} + multiset([Submitting]) == Owned(Submitting, n - 1)
  {
  }

  lemma OwnerGoes(h: Pc, n: nat)
    requires h != Arming
    ensures Owned(h, n) - multiset{h} + multiset([]) == Free(n)
    ensures Owned(h, n) - multiset{h} + multiset([Arming]) == Free(n + 1)
  {
  }

  lemma OwnedMembers(h: Pc, n: nat, x: Pc)
    requires h != Arming
    ensures x in Owned(h, n) ==> x == h || (x == Arming && n > 0)
    ensures x in Free(n) ==> x == Arming && n > 0
    ensures Owned(h, n)[Arming] == n && Free(n)[Arming] == n && |Owned(h, n)| == n + 1
  {
  }

  /** The activity an event moves. */
  function Mover(e: Event): Pc {
    match e
    case Push(_) => Arming
    case Exchange => Arming
    case Submit => Submitting
    case Start => Queued
    case Take => Looping
    case Handled(x) => Handling(x)
    case Abandon => Looping
    case Clear => Closing
  }

  /** The owner of the flag after an event other than `Clear`. */
  function NextOwner(s: State, e: Event, h: Pc): Pc {
    match e
    case Push(_) => h
    case Exchange => h
    case Submit => Queued
    case Start => Looping
    case Take => if |s.queue| == 0 then Closing else Handling(s.queue[0])
    case Handled(_) => Looping
    case Abandon => Closing
    case Clear => h
  }

  /** An arrival, or an activity that finds the flag taken, leaves the owner alone. */
  lemma OwnerStays(s: State, e: Event, h: Pc)
    requires s.flag && HolderInv(s, h) && Enabled(s, e) && (e.Push? || e.Exchange?)
    ensures var t := Step(s, e); t.flag && HolderInv(t, h)
  {
    hide Owned, Free;
    var n, t := s.pcs[Arming], Step(s, e);
    OwnedMembers(h, n, Arming);
    if e.Push? {
      ArmerComes(h, n);
      OwnedMembers(h, n + 1, h);
      assert s.handled + InHand(h) + (s.queue + [e.entry]) == s.pushed + [e.entry];
    } else {
      ArmerGoes(h, n);
      OwnedMembers(h, n - 1, h);
    }
  }

  lemma OwnerClears(s: State, h: Pc)
    requires s.flag && HolderInv(s, h) && Enabled(s, Clear)
    ensures h == Closing
    ensures var t := Step(s, Clear); !t.flag && FreeInv(t)
  {
    hide Owned, Free;
    var n := s.pcs[Arming];
    OwnedMembers(h, n, Closing);
    OwnerGoes(h, n);
    OwnedMembers(h, n, Arming);
    OwnedMembers(h, n + 1, Arming);
  }

  lemma MovePcs(s: State, e: Event, h: Pc)
    requires Enabled(s, e) && !e.Push? && !e.Exchange? && !e.Clear? && Mover(e) == h
    ensures var t := Step(s, e);
      t.flag == s.flag && t.pcs == s.pcs - multiset{h} + multiset([NextOwner(s, e, h)]) && NextOwner(s, e, h) != Arming
  {
  }

  lemma MoveHistory(s: State, e: Event, h: Pc)
    requires Enabled(s, e) && !e.Push? && !e.Exchange? && !e.Clear? && Mover(e) == h
    requires s.pushed == s.handled + InHand(h) + s.queue
    ensures var t := Step(s, e); t.pushed == t.handled + InHand(NextOwner(s, e, h)) + t.queue
  {
    if e.Take? && |s.queue| > 0 {
      assert s.queue == [s.queue[0]] + s.queue[1..];
    }
  }

  lemma OwnerMoves(s: State, e: Event, h: Pc)
    requires s.flag && HolderInv(s, h) && Enabled(s, e) && !e.Push? && !e.Exchange? && !e.Clear?
    ensures Mover(e) == h
    ensures var t := Step(s, e); t.flag && HolderInv(t, NextOwner(s, e, h))
  {
    hide Owned, Free, Step, NextOwner;
    var n, to := s.pcs[Arming], NextOwner(s, e, h);
    OwnedMembers(h, n, Mover(e));
    MovePcs(s, e, h);
    MoveHistory(s, e, h);
    OwnedMoves(h, to, n);
    OwnedMembers(to, n, to);
  }

  lemma OwnedStep(s: State, e: Event, h: Pc)
    requires s.flag && HolderInv(s, h) && Enabled(s, e)
    ensures e.Push? || e.Exchange? || Mover(e) == h
    ensures var t := Step(s, e);
      if e.Clear? then !t.flag && FreeInv(t) else t.flag && HolderInv(t, NextOwner(s, e, h))
  {
    hide HolderInv, FreeInv, Step;
    if e.Push? || e.Exchange? {
      OwnerStays(s, e, h);
    } else if e.Clear? {
      OwnerClears(s, h);
    } else {
      OwnerMoves(s, e, h);
    }
  }

  lemma FreeStep(s: State, e: Event)
    requires !s.flag && FreeInv(s) && Enabled(s, e)
    ensures e.Push? || e.Exchange?
    ensures var t := Step(s, e);
      if e.Push? then !t.flag && FreeInv(t) else t.flag && HolderInv(t, Submitting)
  {
    hide Owned, Free, Move;
    var n := s.pcs[Arming];
    OwnedMembers(Submitting, n, Mover(e));
    if e.Push? {
      FreePush(s, e.entry);
    } else {
      FreeExchange(s);
    }
  }

  lemma FreePush(s: State, x: Entry)
    requires !s.flag && FreeInv(s)
    ensures var t := Step(s, Push(x)); !t.flag && FreeInv(t)
  {
    hide Owned, Free, Move;
    var n := s.pcs[Arming];
    ArmerComes(Submitting, n);
    OwnedMembers(Submitting, n + 1, Arming);
    assert s.handled + (s.queue + [x]) == s.pushed + [x];
  }

  lemma FreeExchange(s: State)
    requires !s.flag && FreeInv(s) && Arming in s.pcs
    ensures var t := Step(s, Exchange); t.flag && HolderInv(t, Submitting)
  {
    hide Owned, Free;
    var n := s.pcs[Arming];
    ArmerGoes(Submitting, n);
    OwnedMembers(Submitting, n - 1, Arming);
  }

  lemma StepKeepsInv(s: State, e: Event)
    requires Inv(s) && Enabled(s, e)
    ensures Inv(Step(s, e))
  {
    hide HolderInv, FreeInv, Step;
    if s.flag {
      var h :| HolderInv(s, h);
      OwnedStep(s, e, h);
    } else {
      FreeStep(s, e);
    }
  }

  lemma {:induction false} RunKeepsInv(s: State, es: seq<Event>)
    requires Inv(s) && Runs(s, es)
    ensures Inv(Run(s, es))
    decreases |es|
  {
    hide Inv, Step;
    if |es| > 0 {
      StepKeepsInv(s, es[0]);
      RunKeepsInv(Step(s, es[0]), es[1..]);
    }
  }

  // ----------------------------------------------------------------- safety

  predicate InLoop(p: Pc) {
    p.Looping? || p.Handling?
  }

  lemma HolderFacts(s: State, h: Pc)
    requires Holder(s, h)
    ensures |s.pcs| == s.pcs[Arming] + 1 && s.pcs[h] == 1
    ensures forall p :: p in s.pcs ==> p == h || p == Arming
  {
    hide Owned;
    OwnedMembers(h, s.pcs[Arming], h);
    forall p | p in s.pcs
      ensures p == h || p == Arming
    {
      OwnedMembers(h, s.pcs[Arming], p);
    }
    OwnedCount(h, s.pcs[Arming]);
  }

  lemma OwnedCount(h: Pc, n: nat)
    requires h != Arming
    ensures Owned(h, n)[h] == 1 && |Free(n)| == n
  {
  }

  /** The entry a drain task has in hand, if one does. */
  ghost predicate HandIs(s: State, hand: seq<Entry>) {
    || (hand == [] && forall x :: Handling(x) !in s.pcs)
    || exists x :: hand == [x] && Handling(x) in s.pcs && forall y :: Handling(y) in s.pcs ==> y == x
  }

  /** In every interleaving: at most one drain task is between its submission and its
      clearing of the flag, in particular at most one is in the loop; a non-empty queue
      has a task on the way or an activity about to arm; and the handled entries, the one
      in hand and the queue are the pushed entries in order, each exactly once. */
  lemma Safety(es: seq<Event>)
    requires Runs(Initial(), es)
    ensures var s := Run(Initial(), es);
      && |s.pcs| == s.pcs[Arming] + (if s.flag then 1 else 0)
      && (forall p, q :: p in s.pcs && q in s.pcs && InLoop(p) && InLoop(q) ==> p == q && s.pcs[p] == 1)
      && (|s.queue| > 0 ==> s.flag || Arming in s.pcs)
      && exists hand :: HandIs(s, hand) && s.pushed == s.handled + hand + s.queue
  {
    hide Owned, Free, Run;
    assert Inv(Initial()) by {
      assert Initial().pcs == Free(0) by { FreeOfNothing(); }
    }
    RunKeepsInv(Initial(), es);
    var s := Run(Initial(), es);
    if s.flag {
      var h :| HolderInv(s, h);
      HolderFacts(s, h);
      assert HandIs(s, InHand(h));
    } else {
      OwnedCount(Submitting, s.pcs[Arming]);
      forall p | p in s.pcs
        ensures p == Arming
      {
        OwnedMembers(Submitting, s.pcs[Arming], p);
      }
      assert HandIs(s, []) && s.handled + [] + s.queue == s.handled + s.queue;
    }
  }

  lemma FreeOfNothing()
    ensures multiset{} == Free(0)
  {
  }

  /** No wakeup is lost: when nothing is running any more, everything pushed was handled, in order. */
  lemma NothingIsStranded(es: seq<Event>)
    requires Runs(Initial(), es) && Run(Initial(), es).pcs == multiset{}
    ensures var s := Run(Initial(), es); s.queue == [] && s.handled == s.pushed && !s.flag
  {
    hide Run;
    Safety(es);
    var s := Run(Initial(), es);
    var hand :| HandIs(s, hand) && s.pushed == s.handled + hand + s.queue;
  }

  // --------------------------------------------------------------- progress

  ghost function Owner(s: State): Pc
    requires Inv(s) && s.flag
  {
    var h :| HolderInv(s, h);
    h
  }

  lemma OwnerIs(s: State, h: Pc)
    requires Inv(s) && s.flag && HolderInv(s, h)
    ensures Owner(s) == h
  {
    hide Owned;
    HolderFacts(s, h);
    HolderFacts(s, Owner(s));
  }

  /** How many steps an owner still has ahead of it, besides handling the queue. */
  function Distance(h: Pc, queued: bool): nat {
    match h
    case Arming => 0
    case Submitting => 5
    case Queued => 4
    case Handling(_) => 4
    case Looping => 3
    case Closing => if queued then 7 else 1
  }

  /** A bound on the steps left if nothing is pushed and no exception leaves the loop. */
  ghost function Weight(s: State): nat
    requires Inv(s)
  {
    6 * s.pcs[Arming] + 2 * |s.queue| + if s.flag then Distance(Owner(s), |s.queue| > 0) else 0
  }

  lemma OwnedStepLosesWeight(s: State, e: Event, h: Pc)
    requires Inv(s) && s.flag && HolderInv(s, h) && Enabled(s, e) && !e.Push?
    ensures Inv(Step(s, e))
    ensures Weight(Step(s, e)) < Weight(s) + (if e.Abandon? then 5 else 0)
  {
    hide HolderInv, FreeInv, Inv;
    StepKeepsInv(s, e);
    OwnedStep(s, e, h);
    OwnerIs(s, h);
    ArmersAfter(s, e, h);
    var t := Step(s, e);
    if !e.Clear? {
      OwnerIs(t, NextOwner(s, e, h));
    }
  }

  lemma ArmersAfter(s: State, e: Event, h: Pc)
    requires s.flag && HolderInv(s, h) && Enabled(s, e) && !e.Push?
    ensures Step(s, e).pcs[Arming] ==
      if e.Exchange? then s.pcs[Arming] - 1
      else if e.Clear? && |s.queue| > 0 then s.pcs[Arming] + 1 else s.pcs[Arming]
  {
    hide Owned, Free, InHand;
    OwnedMembers(h, s.pcs[Arming], Mover(e));
    match e
    case Exchange => OneGoes(s.pcs, Arming, if s.flag then [] else [Submitting]);
    case Clear => OneGoes(s.pcs, Closing, if |s.queue| == 0 then [] else [Arming]);
    case _ => OneGoes(s.pcs, Mover(e), [NextOwner(s, e, h)]);
  }

  lemma OneGoes(pcs: multiset<Pc>, from: Pc, to: seq<Pc>)
    requires from in pcs && |to| <= 1
    ensures (pcs - multiset{from} + multiset(to))[Arming] ==
            pcs[Arming] - (if from == Arming then 1 else 0) + (if to == [Arming] then 1 else 0)
  {
    assert to == [] || to == [to[0]];
  }

  lemma StepLosesWeight(s: State, e: Event)
    requires Inv(s) && Enabled(s, e) && !e.Push?
    ensures Inv(Step(s, e))
    ensures Weight(Step(s, e)) < Weight(s) + (if e.Abandon? then 5 else 0)
  {
    hide Holder;
    if s.flag {
      OwnedStepLosesWeight(s, e, Owner(s));
    } else {
      StepKeepsInv(s, e);
      FreeStep(s, e);
      OwnerIs(Step(s, e), Submitting);
    }
  }

  function Abandons(es: seq<Event>): nat {
    if |es| == 0 then 0 else (if es[0].Abandon? then 1 else 0) + Abandons(es[1..])
  }

  /** Without pushes, a run is no longer than its weight and the exceptions in it allow. */
  lemma {:induction false} QuietRunsAreBounded(s: State, es: seq<Event>)
    requires Inv(s) && Runs(s, es) && forall e :: e in es ==> !e.Push?
    ensures |es| <= Weight(s) + 5 * Abandons(es)
    decreases |es|
  {
    hide Inv, Weight, Step;
    if |es| > 0 {
      StepLosesWeight(s, es[0]);
      QuietRunsAreBounded(Step(s, es[0]), es[1..]);
    }
  }

  /** While an activity is left, one of them can move without an exception. */
  lemma NeverStuck(s: State) returns (e: Event)
    requires Inv(s) && s.pcs != multiset{}
    ensures Enabled(s, e) && !e.Push? && !e.Abandon?
  {
    hide Owned, Free;
    if Arming in s.pcs {
      e := Exchange;
    } else if s.flag {
      var h := Owner(s);
      HolderFacts(s, h);
      e := match h
        case Submitting => Submit
        case Queued => Start
        case Looping => Take
        case Handling(x) => Handled(x)
        case Closing => Clear;
    } else {
      assert s.pcs[Arming] == 0;
      FreeOfNothing();
    }
  }

  /** A run that cannot go on without a new push has handled everything pushed. */
  lemma FinishedRunsHandledEverything(es: seq<Event>)
    requires Runs(Initial(), es)
    requires forall e :: Enabled(Run(Initial(), es), e) ==> e.Push?
    ensures Run(Initial(), es).handled == Run(Initial(), es).pushed
  {
    hide Run, Enabled, Owned, Free;
    var s := Run(Initial(), es);
    assert Inv(Initial()) by { FreeOfNothing(); }
    RunKeepsInv(Initial(), es);
    if s.pcs != multiset{} {
      var e := NeverStuck(s);
      assert false;
    }
    NothingIsStranded(es);
  }

  // ------------------------------------------------------------------ the log

  /** The log object. Each method is one atomic step of an activity. */
  class Log {
    var isProcessing: bool
    var logQueue: seq<Entry>
    ghost var pcs: multiset<Pc>
    ghost var pushed: seq<Entry>
    ghost var handled: seq<Entry>

    ghost function View(): State
      reads this
    {
      State(isProcessing, logQueue, pcs, pushed, handled)
    }

    constructor ()
      ensures View() == Initial()
    {
      isProcessing, logQueue, pcs, pushed, handled := false, [], multiset{}, [], [];
    }

    /** `Debug`, under the lock. */
    method PushEntry(x: Entry)
      modifies this
      ensures View() == Step(old(View()), Push(x))
    {
      logQueue := logQueue + [x];
      pushed := pushed + [x];
      pcs := pcs + multiset{Arming};
    }

    /** `Arm`: set the flag; the caller that found it clear submits the task. */
    method ExchangeFlag() returns (won: bool)
      requires Enabled(View(), Exchange)
      modifies this
      ensures View() == Step(old(View()), Exchange)
      ensures won == !old(isProcessing)
    {
      won := !isProcessing;
      isProcessing := true;
      pcs := Move(View(), Arming, if won then [Submitting] else []);
    }

    method SubmitTask()
      requires Enabled(View(), Submit)
      modifies this
      ensures View() == Step(old(View()), Submit)
    {
      pcs := Move(View(), Submitting, [Queued]);
    }

    method Arm()
      requires Arming in pcs
      modifies this
      ensures var s := Step(old(View()), Exchange);
        View() == if old(isProcessing) then s else Step(s, Submit)
    {
      var won := ExchangeFlag();
      if won {
        SubmitTask();
      }
    }

    /** The drain loop, under the lock. */
    method TakeFront() returns (entry: seq<Entry>)
      requires Enabled(View(), Take)
      modifies this
      ensures View() == Step(old(View()), Take)
      ensures entry == old(logQueue)[..if |old(logQueue)| == 0 then 0 else 1]
    {
      if |logQueue| == 0 {
        pcs := Move(View(), Looping, [Closing]);
        return [];
      }
      entry := [logQueue[0]];
      pcs := Move(View(), Looping, [Handling(logQueue[0])]);
      logQueue := logQueue[1..];
    }

    /** Write an entry; an exception in here is swallowed. */
    method Handle(x: Entry)
      requires Enabled(View(), Handled(x))
      modifies this
      ensures View() == Step(old(View()), Handled(x))
    {
      handled := handled + [x];
      pcs := Move(View(), Handling(x), [Looping]);
    }

    /** The guard, under the lock: clear the flag and look for work. */
    method ClearAndCheck() returns (hasWork: bool)
      requires Enabled(View(), Clear)
      modifies this
      ensures View() == Step(old(View()), Clear)
      ensures hasWork <==> |old(logQueue)| > 0
    {
      isProcessing := false;
      hasWork := |logQueue| > 0;
      pcs := Move(View(), Closing, if hasWork then [Arming] else []);
    }

    /** The drain loop, when no other activity runs between its steps. */
    method DrainLoop(ghost others: multiset<Pc>)
      requires pcs == others + multiset{Looping}
      modifies this
      ensures View() == State(old(isProcessing), [], others + multiset{Closing}, old(pushed), old(handled) + old(logQueue))
    {
      hide Step, Enabled;
      ghost var all := handled + logQueue;
      while true
        invariant View() == State(old(isProcessing), logQueue, others + multiset{Looping}, old(pushed), handled)
        invariant handled + logQueue == all
        decreases |logQueue|
      {
        TakeAlone(View(), others);
        var entry := TakeFront();
        if |entry| == 0 {
          break;
        }
        HandleAlone(View(), others, entry[0]);
        Handle(entry[0]);
      }
    }

    /** The whole drain task, when no other activity runs between its steps. */
    method DrainQueue()
      requires Queued in pcs
      modifies this
      ensures View() == State(false, [], old(pcs) - multiset{Queued}, old(pushed), old(handled) + old(logQueue))
    {
      ghost var others := pcs - multiset{Queued};
      Replace(others, Queued, Looping);
      assert pcs == others + multiset{Queued};
      pcs := Move(View(), Queued, [Looping]);
      DrainLoop(others);
      ClearAlone(View(), others);
      var hasWork := ClearAndCheck();
      // Alone, nothing arrived in between, and the guard has no reason to arm again.
      assert !hasWork;
    }
  }

  lemma Replace(others: multiset<Pc>, a: Pc, b: Pc)
    ensures others + multiset{a} - multiset{a} + multiset([b]) == others + multiset{b}
    ensures others + multiset{a} - multiset{a} + multiset([]) == others
    ensures a in others + multiset{a}
  {
  }

  lemma TakeAlone(s: State, others: multiset<Pc>)
    requires s.pcs == others + multiset{Looping}
    ensures Enabled(s, Take)
    ensures Step(s, Take) ==
      if |s.queue| == 0 then s.(pcs := others + multiset{Closing})
      else s.(queue := s.queue[1..], pcs := others + multiset{Handling(s.queue[0])})
    ensures |s.queue| > 0 ==> s.handled + [s.queue[0]] + s.queue[1..] == s.handled + s.queue
  {
    Replace(others, Looping, if |s.queue| == 0 then Closing else Handling(s.queue[0]));
  }

  lemma HandleAlone(s: State, others: multiset<Pc>, x: Entry)
    requires s.pcs == others + multiset{Handling(x)}
    ensures Enabled(s, Handled(x))
    ensures Step(s, Handled(x)) == s.(handled := s.handled + [x], pcs := others + multiset{Looping})
  {
    Replace(others, Handling(x), Looping);
  }

  lemma ClearAlone(s: State, others: multiset<Pc>)
    requires s.pcs == others + multiset{Closing} && |s.queue| == 0
    ensures Enabled(s, Clear)
    ensures Step(s, Clear) == s.(flag := false, pcs := others)
  {
    Replace(others, Closing, Looping);
  }
}
