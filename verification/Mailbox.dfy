/** The two-sided mailbox: mails live until both sides have deleted them. */
module Mailbox {
  import opened Options

  datatype Side = Sender | Receiver

  /** What a mail says, as far as the patch gives it. */
  datatype Letter = Letter(senderNickname: string, receiverNickname: string, gift: nat, message: string, isNew: bool)
  datatype Draft = Draft(senderNickname: Option<string>, receiverNickname: Option<string>,
                         gift: nat, message: string, isNew: bool)

  datatype Patch =
    | MarkRead(id: nat, read: Option<bool>)
    | Delete(id: nat, side: Option<Side>)
    | Insert(draft: Option<Draft>)

  /** A row of the mailbox table. */
  datatype Mail = Mail(sender: int, receiver: int, letter: Letter, date: nat,
                       isNew: bool, senderGone: bool, receiverGone: bool)

  type Rows = map<nat, Mail>

  /** The table, and the id its next row gets. */
  datatype Table = Table(rows: Rows, nextId: nat)

  /** What else the statements look at: who has a nickname, who (first) has blocked whom, and the
      time at which the row of an id is inserted. */
  datatype World = World(accounts: map<string, int>, blocked: set<(int, int)>, dates: nat -> nat)

  datatype Outcome = Ok | NoRowsAffected | NicknameNotFound | BlockedByReceiver | MailboxFull

  const LIMIT := 100

  // --------------------------------------------------------- sorting the patches

  predicate Reads(p: Patch) { p.MarkRead? && p.id != 0 && p.read == Some(true) }
  predicate Deletes(p: Patch, side: Side) { p.Delete? && p.id != 0 && p.side == Some(side) }
  predicate Sends(p: Patch) {
    p.Insert? && p.draft.Some? && p.draft.value.receiverNickname.Some? && p.draft.value.senderNickname.Some?
  }

  function ToRead(ps: seq<Patch>): set<nat> { set p | p in ps && Reads(p) :: p.id }
  function ToDelete(ps: seq<Patch>, side: Side): set<nat> { set p | p in ps && Deletes(p, side) :: p.id }

  function LetterOf(p: Patch): Letter
    requires Sends(p)
  {
    var d := p.draft.value;
    Letter(d.senderNickname.value, d.receiverNickname.value, d.gift, d.message, d.isNew)
  }

  function ToSend(ps: seq<Patch>): seq<Letter> {
    if |ps| == 0 then []
    else ToSend(ps[..|ps| - 1]) + if Sends(ps[|ps| - 1]) then [LetterOf(ps[|ps| - 1])] else []
  }

  // --------------------------------------------------------------- the statements

  function SetRead(rows: Rows, ids: set<nat>): Rows {
    map id | id in rows :: if id in ids then rows[id].(isNew := false) else rows[id]
  }

  /** `DELETE ... WHERE DeletedFrom<other> = 1 AND Id IN (ids)` for the side that deletes now. */
  function Purge(rows: Rows, side: Side, ids: set<nat>): Rows {
    map id | id in rows && !(id in ids && if side.Sender? then rows[id].receiverGone else rows[id].senderGone) :: rows[id]
  }

  /** `UPDATE ... SET DeletedFrom<side> = 1 WHERE DeletedFrom<other> = 0 AND Id IN (ids)`. */
  function Flag(rows: Rows, side: Side, ids: set<nat>): Rows {
    map id | id in rows ::
      if id !in ids then rows[id]
      else if side.Sender? then (if rows[id].receiverGone then rows[id] else rows[id].(senderGone := true))
      else (if rows[id].senderGone then rows[id] else rows[id].(receiverGone := true))
  }

  function DeleteFor(rows: Rows, side: Side, ids: set<nat>): Rows {
    Flag(Purge(rows, side, ids), side, ids)
  }

  /** The mails a receiver can see. */
  function Visible(rows: Rows, receiver: int): set<nat> {
    set id | id in rows && rows[id].receiver == receiver && !rows[id].receiverGone
  }

  /** The row a letter becomes; account ids are positive, so zero stands for nobody. */
  function Post(id: nat, sender: int, w: World, l: Letter): Mail {
    var receiver := if l.receiverNickname in w.accounts then w.accounts[l.receiverNickname] else 0;
    Mail(sender, receiver, l, w.dates(id), l.isNew, false, false)
  }

  function Refusal(t: Table, sender: int, w: World, l: Letter): Outcome {
    if l.receiverNickname !in w.accounts then NicknameNotFound
    else
      var rid := w.accounts[l.receiverNickname];
      if (rid, sender) in w.blocked then BlockedByReceiver
      else if |Visible(t.rows, rid)| >= LIMIT then MailboxFull
      else Ok
  }

  function SendOne(t: Table, sender: int, w: World, l: Letter): (u: Table)
    requires Refusal(t, sender, w, l) == Ok
  {
    Table(t.rows[t.nextId := Post(t.nextId, sender, w, l)], t.nextId + 1)
  }

  /** Insert letter after letter, up to the first that is refused. */
  function SendAll(t: Table, sender: int, w: World, ls: seq<Letter>): (r: (Table, Outcome))
    ensures t.nextId <= r.0.nextId <= t.nextId + |ls| && r.1 != NoRowsAffected
    decreases |ls|
  {
    if |ls| == 0 then (t, Ok)
    else if Refusal(t, sender, w, ls[0]) != Ok then (t, Refusal(t, sender, w, ls[0]))
    else SendAll(SendOne(t, sender, w, ls[0]), sender, w, ls[1..])
  }

  /** One batch of patches of one account, before the transaction around it ends. */
  function Batch(t: Table, sender: int, w: World, ps: seq<Patch>): (r: (Table, Outcome))
    ensures t.nextId <= r.0.nextId <= t.nextId + |ToSend(ps)|
  {
    var seen := ToRead(ps);
    if seen != {} && seen !! t.rows.Keys then (t, NoRowsAffected)
    else
      var left := DeleteFor(SetRead(t.rows, seen), Sender, ToDelete(ps, Sender));
      var rows := DeleteFor(left, Receiver, ToDelete(ps, Receiver));
      SendAll(t.(rows := rows), sender, w, ToSend(ps))
  }

  /** The patches of one account, and what their statements look at. */
  datatype Part = Part(sender: int, world: World, patches: seq<Patch>)

  /** One transaction over accounts, which ends at the first batch that does not end well; `kept` says
      whether its work, as far as it got, is committed in the end. */
  datatype Event = Event(parts: seq<Part>, kept: bool)

  function Work(t: Table, parts: seq<Part>): Table
    decreases |parts|
  {
    if |parts| == 0 then t
    else
      var (u, r) := Batch(t, parts[0].sender, parts[0].world, parts[0].patches);
      if r == Ok then Work(u, parts[1..]) else u
  }

  /** What is rolled back leaves no trace but the ids that it used up. */
  function Step(t: Table, e: Event): Table {
    var u := Work(t, e.parts);
    if e.kept then u else t.(nextId := u.nextId)
  }

  // ---------------------------------------------------------------- the history

  /** Every mail ever sent, who has deleted it, and who has read it. */
  datatype History = History(sent: Rows, bySender: set<nat>, byReceiver: set<nat>, read: set<nat>)

  const NEW_HISTORY := History(map[], {}, {}, {})
  const NEW_TABLE := Table(map[], 1)

  /** The mails of a batch, under the ids from `first` on. */
  function Sent(first: nat, sender: int, w: World, ls: seq<Letter>): Rows
    decreases |ls|
  {
    if |ls| == 0 then map[] else map[first := Post(first, sender, w, ls[0])] + Sent(first + 1, sender, w, ls[1..])
  }

  /** What a batch does: deletions count for mails sent before it, and letters up to the first refused one are sent. */
  function Note(t: Table, h: History, p: Part): History {
    var (u, r) := Batch(t, p.sender, p.world, p.patches);
    if r == NoRowsAffected then h
    else
      History(h.sent + Sent(t.nextId, p.sender, p.world, ToSend(p.patches)[..u.nextId - t.nextId]),
              h.bySender + (ToDelete(p.patches, Sender) * h.sent.Keys),
              h.byReceiver + (ToDelete(p.patches, Receiver) * h.sent.Keys),
              h.read + (ToRead(p.patches) * h.sent.Keys))
  }

  function NoteAll(t: Table, h: History, parts: seq<Part>): History
    decreases |parts|
  {
    if |parts| == 0 then h
    else
      var (u, r) := Batch(t, parts[0].sender, parts[0].world, parts[0].patches);
      var g := Note(t, h, parts[0]);
      if r == Ok then NoteAll(u, g, parts[1..]) else g
  }

  predicate Gone(h: History, id: nat) {
    id in h.bySender && id in h.byReceiver
  }

  /** The table holds the mails that not both sides have deleted, as they were sent, marked
      by the side that has deleted them. */
  ghost predicate Agrees(t: Table, h: History) {
    && (forall id :: id in h.sent ==> id < t.nextId)
    && h.bySender <= h.sent.Keys && h.byReceiver <= h.sent.Keys && h.read <= h.sent.Keys
    && (forall id :: id in t.rows <==> id in h.sent && !Gone(h, id))
    && (forall id :: id in t.rows ==> t.rows[id] == AsDeleted(h, id))
  }

  function AsDeleted(h: History, id: nat): Mail
    requires id in h.sent
  {
    var m := h.sent[id];
    m.(isNew := m.isNew && id !in h.read, senderGone := id in h.bySender, receiverGone := id in h.byReceiver)
  }

  lemma ReadsAgree(t: Table, h: History, ids: set<nat>)
    requires Agrees(t, h)
    ensures Agrees(t.(rows := SetRead(t.rows, ids)), h.(read := h.read + (ids * h.sent.Keys)))
  {
  }

  /** Purge, then flag: the pair of statements notes one side's deletions. */
  lemma DeletesAgree(t: Table, h: History, side: Side, ids: set<nat>)
    requires Agrees(t, h)
    ensures Agrees(t.(rows := DeleteFor(t.rows, side, ids)),
                   if side.Sender? then h.(bySender := h.bySender + (ids * h.sent.Keys))
                   else h.(byReceiver := h.byReceiver + (ids * h.sent.Keys)))
  {
  }

  lemma SendOneAgrees(t: Table, h: History, sender: int, w: World, l: Letter)
    requires Agrees(t, h) && Refusal(t, sender, w, l) == Ok
    ensures t.nextId !in h.sent
    ensures Agrees(SendOne(t, sender, w, l), h.(sent := h.sent[t.nextId := Post(t.nextId, sender, w, l)]))
  {
    hide Refusal;
  }

  lemma SentOneMore(sent: Rows, first: nat, sender: int, w: World, ls: seq<Letter>, n: nat)
    requires n < |ls|
    ensures sent[first := Post(first, sender, w, ls[0])] + Sent(first + 1, sender, w, ls[1..][..n]) ==
            sent + Sent(first, sender, w, ls[..n + 1])
  {
    hide Post;
    assert ls[..n + 1][1..] == ls[1..][..n];
  }

  lemma {:induction false} SendsAgree(t: Table, h: History, sender: int, w: World, ls: seq<Letter>)
    requires Agrees(t, h)
    ensures var u := SendAll(t, sender, w, ls).0;
      && t.nextId <= u.nextId <= t.nextId + |ls|
      && Agrees(u, h.(sent := h.sent + Sent(t.nextId, sender, w, ls[..u.nextId - t.nextId])))
    decreases |ls|
  {
    hide Agrees, Post, Refusal, Sent;
    if |ls| == 0 || Refusal(t, sender, w, ls[0]) != Ok {
      SentNone(h.sent, t.nextId, sender, w);
      assert ls[..0] == [];
    } else {
      SendOneAgrees(t, h, sender, w, ls[0]);
      var u, g := SendOne(t, sender, w, ls[0]), h.(sent := h.sent[t.nextId := Post(t.nextId, sender, w, ls[0])]);
      SendsAgree(u, g, sender, w, ls[1..]);
      SentOneMore(h.sent, t.nextId, sender, w, ls, SendAll(u, sender, w, ls[1..]).0.nextId - u.nextId);
    }
  }

  lemma SentNone(sent: Rows, first: nat, sender: int, w: World)
    ensures sent + Sent(first, sender, w, []) == sent
  {
  }

  // ------------------------------------------------------------------ whole runs

  function Run(t: Table, es: seq<Event>): Table {
    if |es| == 0 then t else Step(Run(t, es[..|es| - 1]), es[|es| - 1])
  }

  function HistoryOf(t: Table, h: History, es: seq<Event>): History {
    if |es| == 0 then h
    else
      var before, e, g := Run(t, es[..|es| - 1]), es[|es| - 1], HistoryOf(t, h, es[..|es| - 1]);
      if e.kept then NoteAll(before, g, e.parts) else g
  }

  /** A batch does to the table what its note does to the history, whether it ends well or not. */
  lemma BatchAgrees(t: Table, h: History, p: Part)
    requires Agrees(t, h)
    ensures var u := Batch(t, p.sender, p.world, p.patches).0; Agrees(u, Note(t, h, p)) && t.nextId <= u.nextId
  {
    hide Sent, SendAll, SetRead, DeleteFor, Agrees;
    var seen, out, back := ToRead(p.patches), ToDelete(p.patches, Sender), ToDelete(p.patches, Receiver);
    if seen == {} || !(seen !! t.rows.Keys) {
      var t1, h1 := t.(rows := SetRead(t.rows, seen)), h.(read := h.read + (seen * h.sent.Keys));
      ReadsAgree(t, h, seen);
      var t2, h2 := t.(rows := DeleteFor(t1.rows, Sender, out)), h1.(bySender := h.bySender + (out * h.sent.Keys));
      DeletesAgree(t1, h1, Sender, out);
      var t3, h3 := t.(rows := DeleteFor(t2.rows, Receiver, back)), h2.(byReceiver := h.byReceiver + (back * h.sent.Keys));
      DeletesAgree(t2, h2, Receiver, back);
      SendsAgree(t3, h3, p.sender, p.world, ToSend(p.patches));
    }
  }

  lemma {:induction false} WorkAgrees(t: Table, h: History, parts: seq<Part>)
    requires Agrees(t, h)
    ensures Agrees(Work(t, parts), NoteAll(t, h, parts)) && t.nextId <= Work(t, parts).nextId
    decreases |parts|
  {
    hide Batch, Note, Agrees;
    if |parts| > 0 {
      BatchAgrees(t, h, parts[0]);
      WorkAgrees(Batch(t, parts[0].sender, parts[0].world, parts[0].patches).0, Note(t, h, parts[0]), parts[1..]);
    }
  }

  lemma StepAgrees(t: Table, h: History, e: Event)
    requires Agrees(t, h)
    ensures Agrees(Step(t, e), if e.kept then NoteAll(t, h, e.parts) else h)
  {
    hide Work, NoteAll, AsDeleted;
    WorkAgrees(t, h, e.parts);
  }

  lemma {:induction false} RunAgrees(es: seq<Event>)
    ensures Agrees(Run(NEW_TABLE, es), HistoryOf(NEW_TABLE, NEW_HISTORY, es))
  {
    hide Step, NoteAll, Agrees;
    if |es| > 0 {
      RunAgrees(es[..|es| - 1]);
      StepAgrees(Run(NEW_TABLE, es[..|es| - 1]), HistoryOf(NEW_TABLE, NEW_HISTORY, es[..|es| - 1]), es[|es| - 1]);
    } else {
      assert Agrees(NEW_TABLE, NEW_HISTORY) by { Fresh(); }
    }
  }

  lemma Fresh()
    ensures Agrees(NEW_TABLE, NEW_HISTORY)
  {
  }

  /** In every run of transactions, kept or rolled back, over any batches: a mail is in the table exactly if it
      was sent and not both sides have deleted it, in whatever order or batch they did; it is
      then what was sent, read if it was ever marked, flagged by at most one side. */
  lemma MailsLiveUntilBothDelete(es: seq<Event>, id: nat)
    ensures var rows := Run(NEW_TABLE, es).rows; var h := HistoryOf(NEW_TABLE, NEW_HISTORY, es);
      && (id in rows <==> id in h.sent && !(id in h.bySender && id in h.byReceiver))
      && (id in rows ==> rows[id] == h.sent[id].(isNew := h.sent[id].isNew && id !in h.read,
                                                 senderGone := id in h.bySender, receiverGone := id in h.byReceiver))
      && (id in rows ==> !(rows[id].senderGone && rows[id].receiverGone))
  {
    hide Run, HistoryOf;
    RunAgrees(es);
  }

  // -------------------------------------------------------------- full mailboxes

  ghost predicate Within(rows: Rows) {
    forall receiver: int :: |Visible(rows, receiver)| <= LIMIT
  }

  lemma {:induction false} FewerVisible(a: set<nat>, b: set<nat>)
    requires a <= b
    ensures |a| <= |b|
  {
    if a != {} {
      var x :| x in a;
      FewerVisible(a - {x}, b - {x});
    }
  }

  lemma DeletesKeepWithin(rows: Rows, side: Side, ids: set<nat>)
    requires Within(rows)
    ensures Within(DeleteFor(rows, side, ids))
  {
    forall receiver: int ensures |Visible(DeleteFor(rows, side, ids), receiver)| <= LIMIT {
      FewerVisible(Visible(DeleteFor(rows, side, ids), receiver), Visible(rows, receiver));
    }
  }

  lemma ReadsKeepWithin(rows: Rows, ids: set<nat>)
    requires Within(rows)
    ensures Within(SetRead(rows, ids))
  {
    forall receiver: int ensures |Visible(SetRead(rows, ids), receiver)| <= LIMIT {
      FewerVisible(Visible(SetRead(rows, ids), receiver), Visible(rows, receiver));
    }
  }

  predicate NextIsFree(t: Table) {
    forall id :: id in t.rows ==> id < t.nextId
  }

  lemma SendOneKeepsWithin(t: Table, sender: int, w: World, l: Letter)
    requires Within(t.rows) && NextIsFree(t) && Refusal(t, sender, w, l) == Ok
    ensures Within(SendOne(t, sender, w, l).rows) && NextIsFree(SendOne(t, sender, w, l))
  {
    var u := SendOne(t, sender, w, l);
    var rid := w.accounts[l.receiverNickname];
    assert t.nextId !in t.rows;
    forall receiver: int ensures |Visible(u.rows, receiver)| <= LIMIT {
      var now := Visible(u.rows, receiver);
      if receiver == rid {
        assert now == Visible(t.rows, rid) + {t.nextId};
      } else {
        assert now == Visible(t.rows, receiver);
      }
    }
  }

  lemma {:induction false} SendsKeepWithin(t: Table, sender: int, w: World, ls: seq<Letter>)
    requires Within(t.rows) && NextIsFree(t)
    ensures Within(SendAll(t, sender, w, ls).0.rows)
    decreases |ls|
  {
    hide Within, NextIsFree, Refusal;
    if |ls| > 0 && Refusal(t, sender, w, ls[0]) == Ok {
      SendOneKeepsWithin(t, sender, w, ls[0]);
      SendsKeepWithin(SendOne(t, sender, w, ls[0]), sender, w, ls[1..]);
    }
  }

  lemma BatchKeepsWithin(t: Table, h: History, p: Part)
    requires Agrees(t, h) && Within(t.rows)
    ensures Within(Batch(t, p.sender, p.world, p.patches).0.rows)
  {
    hide Within, SendAll, Visible;
    var seen, out, back := ToRead(p.patches), ToDelete(p.patches, Sender), ToDelete(p.patches, Receiver);
    var r1 := SetRead(t.rows, seen);
    var r2 := DeleteFor(r1, Sender, out);
    ReadsKeepWithin(t.rows, seen);
    DeletesKeepWithin(r1, Sender, out);
    DeletesKeepWithin(r2, Receiver, back);
    SendsKeepWithin(t.(rows := DeleteFor(r2, Receiver, back)), p.sender, p.world, ToSend(p.patches));
  }

  lemma {:induction false} WorkKeepsWithin(t: Table, h: History, parts: seq<Part>)
    requires Agrees(t, h) && Within(t.rows)
    ensures Within(Work(t, parts).rows)
    decreases |parts|
  {
    hide Batch, Note, Agrees, Within;
    if |parts| > 0 {
      BatchAgrees(t, h, parts[0]);
      BatchKeepsWithin(t, h, parts[0]);
      WorkKeepsWithin(Batch(t, parts[0].sender, parts[0].world, parts[0].patches).0, Note(t, h, parts[0]), parts[1..]);
    }
  }

  /** In every run no receiver ever sees more than a hundred mails. */
  lemma {:induction false} MailboxesStayWithinLimit(es: seq<Event>, receiver: int)
    ensures |Visible(Run(NEW_TABLE, es).rows, receiver)| <= 100
  {
    hide HistoryOf, Step;
    RunKeepsWithin(es);
    assert Within(Run(NEW_TABLE, es).rows);
  }

  lemma {:induction false} RunKeepsWithin(es: seq<Event>)
    ensures Within(Run(NEW_TABLE, es).rows)
  {
    hide HistoryOf, Work, Agrees;
    if |es| > 0 {
      RunKeepsWithin(es[..|es| - 1]);
      RunAgrees(es[..|es| - 1]);
      WorkKeepsWithin(Run(NEW_TABLE, es[..|es| - 1]), HistoryOf(NEW_TABLE, NEW_HISTORY, es[..|es| - 1]), es[|es| - 1].parts);
    } else {
      assert forall r: int :: Visible(map[], r) == {};
    }
  }

  // ------------------------------------------------------ what a batch does, by its patches

  /** Which patches count: marks that set a mail read, deletions that name a side, and letters with both
      nicknames, in order; all with a mail's id where one is needed. */
  lemma {:induction false} CountedPatches(ps: seq<Patch>, id: nat, side: Side)
    ensures id in ToRead(ps) <==> id != 0 && MarkRead(id, Some(true)) in ps
    ensures id in ToDelete(ps, side) <==> id != 0 && Delete(id, Some(side)) in ps
  {
  }

  lemma CountedLetters(ps: seq<Patch>, p: Patch)
    ensures ToSend([]) == []
    ensures !p.Insert? || p.draft.None? ==> ToSend(ps + [p]) == ToSend(ps)
    ensures p.Insert? && p.draft.Some? ==> var d := p.draft.value;
              ToSend(ps + [p]) == ToSend(ps) +
                if d.senderNickname.Some? && d.receiverNickname.Some?
                then [Letter(d.senderNickname.value, d.receiverNickname.value, d.gift, d.message, d.isNew)] else []
  {
    assert (ps + [p])[..|ps|] == ps;
  }

  /** A batch that marks mails, none of which is there, ends at once. */
  lemma MarksNothing(t: Table, sender: int, w: World, ps: seq<Patch>)
    ensures Batch(t, sender, w, ps).1 == NoRowsAffected <==>
            (exists id :: id in ToRead(ps)) && forall id :: id in ToRead(ps) ==> id !in t.rows
    ensures Batch(t, sender, w, ps).1 == NoRowsAffected ==> Batch(t, sender, w, ps).0 == t
  {
    hide ToRead, SetRead, DeleteFor, SendAll, ToDelete, ToSend;
  }

  /** What a batch that does not end there adds to the history. */
  lemma NoteByPatches(t: Table, h: History, p: Part, id: nat)
    requires Batch(t, p.sender, p.world, p.patches).1 != NoRowsAffected
    ensures var g := Note(t, h, p);
      && (id in g.bySender <==> id in h.bySender || (id in h.sent && id != 0 && Delete(id, Some(Sender)) in p.patches))
      && (id in g.byReceiver <==>
            id in h.byReceiver || (id in h.sent && id != 0 && Delete(id, Some(Receiver)) in p.patches))
      && (id in g.read <==> id in h.read || (id in h.sent && id != 0 && MarkRead(id, Some(true)) in p.patches))
  {
    hide Batch, ToRead, ToDelete, ToSend, Sent;
    CountedPatches(p.patches, id, Sender);
    CountedPatches(p.patches, id, Receiver);
  }

  /** How many mails a receiver has that it did not delete. */
  function Mails(rows: Rows, receiver: int): nat {
    |set id | id in rows && rows[id].receiver == receiver && !rows[id].receiverGone|
  }

  /** The row of a letter: from the account, to the account of the nickname, as it was written, unread unless it
      says otherwise, deleted by nobody. */
  predicate IsRowOf(m: Mail, sender: int, w: World, l: Letter) {
    && l.receiverNickname in w.accounts && m.receiver == w.accounts[l.receiverNickname] && m.sender == sender
    && m.letter == l && m.isNew == l.isNew && !m.senderGone && !m.receiverGone
  }

  /** The owner of the nickname has not blocked the sender and has room. */
  predicate Welcome(rows: Rows, sender: int, w: World, l: Letter) {
    && l.receiverNickname in w.accounts && (w.accounts[l.receiverNickname], sender) !in w.blocked
    && Mails(rows, w.accounts[l.receiverNickname]) < 100
  }

  /** Why a letter is refused: nobody has the nickname, its owner has blocked the sender, or its owner
      has a hundred mails. */
  predicate IsRefusal(r: Outcome, rows: Rows, sender: int, w: World, l: Letter) {
    && !Welcome(rows, sender, w, l)
    && r == if l.receiverNickname !in w.accounts then NicknameNotFound
            else if (w.accounts[l.receiverNickname], sender) in w.blocked then BlockedByReceiver else MailboxFull
  }

  /** The table after the first `n` letters. */
  function Inserted(t: Table, sender: int, w: World, ls: seq<Letter>, n: nat): Table
    requires n <= |ls|
  {
    if n == 0 then t
    else
      var u := Inserted(t, sender, w, ls, n - 1);
      Table(u.rows[u.nextId := Post(u.nextId, sender, w, ls[n - 1])], u.nextId + 1)
  }

  lemma {:induction false} InsertedAfterOne(t: Table, sender: int, w: World, ls: seq<Letter>, n: nat)
    requires n < |ls|
    ensures Inserted(t, sender, w, ls, n + 1) ==
            Inserted(Table(t.rows[t.nextId := Post(t.nextId, sender, w, ls[0])], t.nextId + 1), sender, w, ls[1..], n)
  {
    hide Post;
    if n > 0 {
      InsertedAfterOne(t, sender, w, ls, n - 1);
    } else {
      assert Inserted(t, sender, w, ls, 0) == t;
    }
  }

  /** Letters are inserted one after the other, each being welcome at its turn, up to the first that is refused. */
  lemma {:induction false} LettersInserted(t: Table, sender: int, w: World, ls: seq<Letter>)
    ensures var (u, r) := SendAll(t, sender, w, ls); var n := u.nextId - t.nextId;
      && u == Inserted(t, sender, w, ls, n)
      && (forall i :: 0 <= i < n ==> Welcome(Inserted(t, sender, w, ls, i).rows, sender, w, ls[i]))
      && (if n == |ls| then r == Ok else IsRefusal(r, u.rows, sender, w, ls[n]))
    decreases |ls|
  {
    hide Post, Welcome, IsRefusal, Inserted, Refusal;
    NoneInserted(t, sender, w, ls);
    if |ls| > 0 {
      RefusalInClear(t, sender, w, ls[0]);
      if Refusal(t, sender, w, ls[0]) == Ok {
        var u := SendOne(t, sender, w, ls[0]);
        LettersInserted(u, sender, w, ls[1..]);
        var n := SendAll(u, sender, w, ls[1..]).0.nextId - u.nextId;
        InsertedAfterOne(t, sender, w, ls, n);
        forall i | 0 <= i < n + 1 ensures Welcome(Inserted(t, sender, w, ls, i).rows, sender, w, ls[i]) {
          if i > 0 {
            InsertedAfterOne(t, sender, w, ls, i - 1);
          }
        }
      }
    }
  }

  lemma NoneInserted(t: Table, sender: int, w: World, ls: seq<Letter>)
    ensures Inserted(t, sender, w, ls, 0) == t
  {
  }

  lemma RefusalInClear(t: Table, sender: int, w: World, l: Letter)
    ensures var r := Refusal(t, sender, w, l);
      && (r == Ok <==> Welcome(t.rows, sender, w, l))
      && (r != Ok ==> IsRefusal(r, t.rows, sender, w, l))
  {
    forall receiver: int ensures Mails(t.rows, receiver) == |Visible(t.rows, receiver)| {
      assert Visible(t.rows, receiver) ==
             set id | id in t.rows && t.rows[id].receiver == receiver && !t.rows[id].receiverGone;
    }
  }

  /** The row of the letter inserted as number `i`. */
  lemma {:induction false} RowsInserted(t: Table, sender: int, w: World, ls: seq<Letter>, n: nat, i: nat)
    requires n <= |ls| && NextIsFree(t)
    ensures var u := Inserted(t, sender, w, ls, n);
      && u.nextId == t.nextId + n
      && (forall id :: id in u.rows <==> id in t.rows || t.nextId <= id < t.nextId + n)
      && (forall id :: id in t.rows ==> u.rows[id] == t.rows[id])
      && (i < n && ls[i].receiverNickname in w.accounts ==>
            var m := u.rows[t.nextId + i]; IsRowOf(m, sender, w, ls[i]) && m.date == w.dates(t.nextId + i))
  {
    if n > 0 {
      RowsInserted(t, sender, w, ls, n - 1, i);
    }
  }

  // --------------------------------------------------------------------- the table

  lemma SortNone()
    ensures ToRead([]) == {} && ToDelete([], Sender) == {} && ToDelete([], Receiver) == {} && ToSend([]) == []
  {
  }

  lemma SortOne(ps: seq<Patch>, p: Patch)
    ensures ToRead(ps + [p]) == ToRead(ps) + if Reads(p) then {p.id} else {}
    ensures ToDelete(ps + [p], Sender) == ToDelete(ps, Sender) + if Deletes(p, Sender) then {p.id} else {}
    ensures ToDelete(ps + [p], Receiver) == ToDelete(ps, Receiver) + if Deletes(p, Receiver) then {p.id} else {}
    ensures ToSend(ps + [p]) == ToSend(ps) + if Sends(p) then [LetterOf(p)] else []
  {
    assert (ps + [p])[..|ps|] == ps;
  }

  class MailTable {
    var rows: Rows
    var nextId: nat

    ghost function View(): Table
      reads this
    {
      Table(rows, nextId)
    }

    constructor ()
      ensures View() == NEW_TABLE
    {
      rows, nextId := map[], 1;
    }

    static method SortPatches(patches: seq<Patch>)
      returns (markRead: set<nat>, delSender: set<nat>, delReceiver: set<nat>, letters: seq<Letter>)
      ensures markRead == ToRead(patches) && letters == ToSend(patches)
      ensures delSender == ToDelete(patches, Sender) && delReceiver == ToDelete(patches, Receiver)
    {
      hide ToRead, ToDelete, ToSend;
      SortNone();
      markRead, delSender, delReceiver, letters := {}, {}, {}, [];
      for i := 0 to |patches|
        invariant markRead == ToRead(patches[..i]) && letters == ToSend(patches[..i])
        invariant delSender == ToDelete(patches[..i], Sender) && delReceiver == ToDelete(patches[..i], Receiver)
      {
        SortOne(patches[..i], patches[i]);
        assert patches[..i + 1] == patches[..i] + [patches[i]];
        match patches[i] {
          case MarkRead(id, read) =>
            if id != 0 && read == Some(true) {
              markRead := markRead + {id};
            }
          case Delete(id, side) =>
            if id != 0 && side.Some? {
              if side.value == Sender {
                delSender := delSender + {id};
              } else {
                delReceiver := delReceiver + {id};
              }
            }
          case Insert(draft) =>
            if draft.Some? && draft.value.receiverNickname.Some? && draft.value.senderNickname.Some? {
              letters := letters + [LetterOf(patches[i])];
            }
        }
      }
      assert patches[..|patches|] == patches;
    }

    /** `PersistMailboxPatches`, inside its transaction; `ids` are the ids the new mails got. */
    method PersistMailboxPatches(aid: int, w: World, patches: seq<Patch>) returns (r: Outcome, ids: seq<nat>)
      modifies this
      ensures (View(), r) == Batch(old(View()), aid, w, patches)
      ensures ids == seq(|ids|, i requires 0 <= i => old(nextId) + i) && nextId == old(nextId) + |ids|
    {
      hide SetRead, Purge, Flag, SendAll, ToRead, ToDelete, ToSend;
      var markRead, delSender, delReceiver, letters := SortPatches(patches);
      if markRead != {} {
        if markRead !! rows.Keys {
          return NoRowsAffected, [];
        }
      }
      rows := SetRead(rows, markRead);
      rows := Purge(rows, Sender, delSender);
      rows := Flag(rows, Sender, delSender);
      rows := Purge(rows, Receiver, delReceiver);
      rows := Flag(rows, Receiver, delReceiver);
      r, ids := InsertLetters(aid, w, letters);
    }

    /** The loop over the new mails. */
    method InsertLetters(aid: int, w: World, letters: seq<Letter>) returns (r: Outcome, ids: seq<nat>)
      modifies this
      ensures (View(), r) == SendAll(old(View()), aid, w, letters)
      ensures ids == seq(|ids|, i requires 0 <= i => old(nextId) + i) && nextId == old(nextId) + |ids|
    {
      hide Visible, Post;
      ids := [];
      ghost var all := SendAll(View(), aid, w, letters);
      for i := 0 to |letters|
        invariant SendAll(View(), aid, w, letters[i..]) == all
        invariant ids == seq(|ids|, i requires 0 <= i => old(nextId) + i) && nextId == old(nextId) + |ids|
      {
        var l := letters[i];
        assert letters[i..][1..] == letters[i + 1..];
        if l.receiverNickname !in w.accounts {
          return NicknameNotFound, ids;
        }
        var rid := w.accounts[l.receiverNickname];
        if (rid, aid) in w.blocked {
          return BlockedByReceiver, ids;
        }
        if |Visible(rows, rid)| >= LIMIT {
          return MailboxFull, ids;
        }
        rows := rows[nextId := Post(nextId, aid, w, l)];
        ids := ids + [nextId];
        nextId := nextId + 1;
      }
      r := Ok;
    }
  }
}
