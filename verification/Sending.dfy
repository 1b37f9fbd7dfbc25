/** A session's single-writer send queue and its disconnect step. */
module Sending {
  import opened Words
  import opened Codec
  import opened Framing

  /** Everything that touches the queue runs on the session's strand, one event at a time. */
  datatype Event =
    | Send(packet: Bytes)
    | Written(which: nat, ok: bool)  // a write handed to the socket completes
    | Close

  /** `writes` are the writes handed to the socket and not completed yet. The history:
      packets the queue accepted, packets written, and calls of the disconnect callback. */
  datatype Sender = Sender(open: bool, queue: seq<Bytes>, writes: seq<Bytes>,
                           accepted: seq<Bytes>, written: seq<Bytes>, callbacks: nat)

  const NEW_SENDER := Sender(true, [], [], [], [], 0)

  predicate Enabled(s: Sender, e: Event) {
    e.Written? ==> e.which < |s.writes|
  }

  function StartWrite(s: Sender): Sender {
    if !s.open then s.(queue := [])
    else if |s.queue| == 0 then s
    else s.(writes := s.writes + [s.queue[0]])
  }

  function Disconnected(s: Sender): Sender {
    if s.open then s.(open := false, callbacks := s.callbacks + 1) else s
  }

  function Step(s: Sender, e: Event): Sender
    requires Enabled(s, e)
  {
    match e
    case Send(p) =>
      if !s.open then s
      else
        var t := s.(queue := s.queue + [p], accepted := s.accepted + [p]);
        if |s.queue| == 0 then StartWrite(t) else t
    case Written(k, ok) =>
      var t := s.(writes := s.writes[..k] + s.writes[k + 1..]);
      if !ok then Disconnected(t.(queue := []))
      else
        var u := t.(written := t.written + [s.writes[k]], queue := if |t.queue| == 0 then [] else t.queue[1..]);
        if |u.queue| == 0 then u else StartWrite(u)
    case Close => Disconnected(s)
  }

  predicate Runs(s: Sender, es: seq<Event>)
    decreases |es|
  {
    |es| == 0 || (Enabled(s, es[0]) && Runs(Step(s, es[0]), es[1..]))
  }

  function Run(s: Sender, es: seq<Event>): Sender
    requires Runs(s, es)
    decreases |es|
  {
    if |es| == 0 then s else Run(Step(s, es[0]), es[1..])
  }

  /** One write at most, exactly when the queue is not empty, and it carries the front;
      what was written comes first among what was accepted, and on an open session the
      queue is the rest; the callback fired exactly when the session closed. */
  predicate Inv(s: Sender) {
    && s.writes == s.queue[..if |s.queue| == 0 then 0 else 1]
    && s.written + s.queue <= s.accepted
    && (s.open ==> s.written + s.queue == s.accepted)
    && s.callbacks == (if s.open then 0 else 1)
  }

  lemma StepKeepsInv(s: Sender, e: Event)
    requires Inv(s) && Enabled(s, e)
    ensures Inv(Step(s, e))
  {
    if e.Written? {
      assert e.which == 0 && s.writes == [s.queue[0]];
      assert s.written + s.queue == s.written + [s.queue[0]] + s.queue[1..];
    } else if e.Send? && s.open {
      assert s.written + (s.queue + [e.packet]) == s.accepted + [e.packet];
    }
  }

  lemma {:induction false} RunKeepsInv(s: Sender, es: seq<Event>)
    requires Inv(s) && Runs(s, es)
    ensures Inv(Run(s, es))
    decreases |es|
  {
    if |es| > 0 {
      StepKeepsInv(s, es[0]);
      RunKeepsInv(Step(s, es[0]), es[1..]);
    }
  }

  /** In every run of sends, completions, errors and disconnects from a new session:
      at most one write is in flight, exactly when the queue is not empty, and it
      carries the front; written packets are a prefix of the accepted ones, and the
      queue is exactly the rest until the session closes; the callback fires at most once. */
  lemma SendQueueSafety(es: seq<Event>)
    requires Runs(NEW_SENDER, es)
    ensures var s := Run(NEW_SENDER, es);
      && |s.writes| <= 1
      && (|s.writes| == 1 <==> |s.queue| > 0)
      && (|s.queue| > 0 ==> s.writes[0] == s.queue[0])
      && s.written <= s.accepted
      && (s.open ==> s.written + s.queue == s.accepted)
      && s.callbacks <= 1 && (s.callbacks == 0 <==> s.open)
  {
    RunKeepsInv(NEW_SENDER, es);
    var s := Run(NEW_SENDER, es);
    assert s.written + s.queue <= s.accepted;
  }

  /** The packets a run tries to send, in order. */
  function Sends(es: seq<Event>): seq<Bytes> {
    if |es| == 0 then []
    else (if es[0].Send? then [es[0].packet] else []) + Sends(es[1..])
  }

  lemma StepAccepts(s: Sender, e: Event)
    requires Enabled(s, e)
    ensures Step(s, e).accepted == s.accepted + (if e.Send? && s.open then [e.packet] else [])
    ensures !s.open ==> !Step(s, e).open
  {
  }

  lemma Extended(accepted: seq<Bytes>, sent: seq<Bytes>, all: seq<Bytes>, rest: seq<Bytes>)
    requires accepted + sent <= all <= accepted + sent + rest
    ensures accepted <= all <= accepted + (sent + rest)
  {
    assert accepted + sent + rest == accepted + (sent + rest);
  }

  lemma {:induction false} AcceptedAreSent(s: Sender, es: seq<Event>)
    requires Runs(s, es)
    ensures s.accepted <= Run(s, es).accepted <= s.accepted + Sends(es)
    decreases |es|
  {
    hide Step, Enabled;
    if |es| > 0 {
      StepAccepts(s, es[0]);
      if es[0].Send? && !s.open {
        ClosedAcceptsNothing(s, es);
      } else {
        AcceptedAreSent(Step(s, es[0]), es[1..]);
        Extended(s.accepted, if es[0].Send? then [es[0].packet] else [], Run(s, es).accepted, Sends(es[1..]));
      }
    }
  }

  lemma {:induction false} ClosedAcceptsNothing(s: Sender, es: seq<Event>)
    requires !s.open && Runs(s, es)
    ensures Run(s, es).accepted == s.accepted
    decreases |es|
  {
    hide Step, Enabled;
    if |es| > 0 {
      StepAccepts(s, es[0]);
      ClosedAcceptsNothing(Step(s, es[0]), es[1..]);
    }
  }

  // --------------------------------------------------- what a run comes to, by its events alone

  /** A failed write or a close ends the session. */
  predicate Ends(e: Event) {
    e.Close? || (e.Written? && !e.ok)
  }

  predicate NeverEnds(es: seq<Event>) {
    forall e :: e in es ==> !Ends(e)
  }

  /** The events before the first that ends the session. */
  function UntilEnd(es: seq<Event>): seq<Event> {
    if |es| == 0 || Ends(es[0]) then [] else [es[0]] + UntilEnd(es[1..])
  }

  /** The writes that completed well. */
  function Successes(es: seq<Event>): nat {
    if |es| == 0 then 0 else (if es[0].Written? && es[0].ok then 1 else 0) + Successes(es[1..])
  }

  lemma StepByEvent(s: Sender, e: Event)
    requires Enabled(s, e)
    ensures var t := Step(s, e);
      && (t.open <==> s.open && !Ends(e))
      && |t.written| == |s.written| + (if e.Written? && e.ok then 1 else 0)
  {
  }

  lemma {:induction false} RunByEventsFrom(s: Sender, es: seq<Event>)
    requires Runs(s, es)
    ensures var t := Run(s, es);
      && (t.open <==> s.open && NeverEnds(es))
      && t.accepted == s.accepted + (if s.open then Sends(UntilEnd(es)) else [])
      && |t.written| == |s.written| + Successes(es)
    decreases |es|
  {
    hide Step, Enabled;
    if |es| > 0 {
      var e, u := es[0], Step(s, es[0]);
      StepByEvent(s, e);
      StepAccepts(s, e);
      RunByEventsFrom(u, es[1..]);
      assert NeverEnds(es) <==> !Ends(e) && NeverEnds(es[1..]);
      if !Ends(e) {
        assert UntilEnd(es)[0] == e && UntilEnd(es)[1..] == UntilEnd(es[1..]);
        assert s.open ==> u.accepted + Sends(UntilEnd(es[1..])) ==
                          s.accepted + ((if e.Send? then [e.packet] else []) + Sends(UntilEnd(es[1..])));
      }
    }
  }

  lemma {:induction false} NothingEnded(es: seq<Event>)
    requires NeverEnds(es)
    ensures UntilEnd(es) == es
  {
    if |es| > 0 {
      NothingEnded(es[1..]);
    }
  }

  /** A session stays open exactly until a write fails or it is closed; it accepts exactly the packets
      handed over before that, and none afterwards; and as many packets are written as writes
      completed well, the first ones accepted. While it is open whatever is accepted and not yet
      written is queued, and if there is such a packet, one write is in flight that can complete. */
  lemma RunByEvents(es: seq<Event>)
    requires Runs(NEW_SENDER, es)
    ensures var s := Run(NEW_SENDER, es);
      && (s.open <==> NeverEnds(es))
      && s.callbacks == (if NeverEnds(es) then 0 else 1)
      && s.accepted == Sends(UntilEnd(es))
      && (NeverEnds(es) ==> s.accepted == Sends(es))
      && Successes(es) <= |s.accepted| && s.written == s.accepted[..Successes(es)]
      && (NeverEnds(es) && Successes(es) < |Sends(es)| ==> Enabled(s, Written(0, true)))
  {
    RunByEventsFrom(NEW_SENDER, es);
    RunKeepsInv(NEW_SENDER, es);
    var s := Run(NEW_SENDER, es);
    if NeverEnds(es) {
      NothingEnded(es);
    }
    assert s.written <= s.written + s.queue <= s.accepted;
  }

  lemma {:induction false} WiresPrefix(ms: seq<Message>, key: bv32, how: EncryptMethod, written: seq<Bytes>)
    requires written <= Wires(ms, key, how)
    ensures |written| <= |ms| && written == Wires(ms[..|written|], key, how)
  {
    hide UnmixedWire;
    if |written| > 0 {
      assert |ms| > 0;
      WiresPrefix(ms[1..], key, how, written[1..]);
      assert ms[..|written|][1..] == ms[1..][..|written| - 1];
      assert written == [written[0]] + written[1..];
    }
  }

  /** Queue, wire, framing and codec together, on sessions with and without encryption: whatever
      errors and closes happen at the sender and however the written bytes are split into reads at
      the peer, the peer gets the first packets that were sent, intact, in order and without
      repetition, as many as writes completed well, which is all of them if every write did; as
      long as no header was mixed. */
  lemma PipelineDelivers(ms: seq<Message>, key: bv32, how: EncryptMethod, es: seq<Event>, chunks: seq<Bytes>)
    requires forall m :: m in ms ==> Sendable(m, key, how)
    requires Runs(NEW_SENDER, es) && Sends(es) == Wires(ms, key, how)
    requires Flatten(chunks) == Flatten(Run(NEW_SENDER, es).written)
    ensures var f := FeedAll(Packets(!Negative(key)), Reader([], [], true), chunks);
      f.open && |f.delivered| == Successes(es) <= |ms| &&
      forall i :: 0 <= i < |f.delivered| ==> Process(f.delivered[i], key) == Parsed(Codec.Delivered(ms[i], key, how))
  {
    hide Process, Codec.Delivered, FeedAll, Wires, Flatten, UntilEnd;
    SendQueueSafety(es);
    RunByEvents(es);
    AcceptedAreSent(NEW_SENDER, es);
    var written := Run(NEW_SENDER, es).written;
    assert NEW_SENDER.accepted + Sends(es) == Sends(es);
    WiresPrefix(ms, key, how, written);
    StreamOfPackets(ms[..|written|], key, how, chunks);
    WiresLength(ms[..|written|], key, how);
  }

  lemma {:induction false} WiresLength(ms: seq<Message>, key: bv32, how: EncryptMethod)
    ensures |Wires(ms, key, how)| == |ms|
  {
    hide UnmixedWire;
    if |ms| > 0 {
      WiresLength(ms[1..], key, how);
    }
  }

  lemma {:induction false} IpcPrefix(ms: seq<IpcMessage>, written: seq<Bytes>)
    requires written <= IpcFrames(ms)
    ensures |written| <= |ms| && written == IpcFrames(ms[..|written|])
  {
    hide IpcBytes;
    if |written| > 0 {
      assert |ms| > 0;
      IpcPrefix(ms[1..], written[1..]);
      assert ms[..|written|][1..] == ms[1..][..|written| - 1];
      assert written == [written[0]] + written[1..];
    }
  }

  lemma {:induction false} IpcFramesCount(ms: seq<IpcMessage>)
    ensures |IpcFrames(ms)| == |ms|
  {
    hide IpcBytes;
    if |ms| > 0 {
      IpcFramesCount(ms[1..]);
    }
  }

  lemma {:induction false} IpcFrameAt(ms: seq<IpcMessage>, i: nat)
    requires i < |ms| == |IpcFrames(ms)|
    ensures IpcFrames(ms)[i] == IpcBytes(ms[i])
  {
    hide IpcBytes;
    if i > 0 {
      IpcFrameAt(ms[1..], i - 1);
    }
  }

  /** The same for IPC: whatever errors and closes happen and however reads split the bytes, the
      peer gets the first messages that were sent, in order, each as it was, as many as writes
      completed well; of those only a last message without payload is still held back. */
  lemma IpcPipelineDelivers(ms: seq<IpcMessage>, es: seq<Event>, chunks: seq<Bytes>)
    requires forall m :: m in ms ==> m.id < 0x1_0000_0000 && |m.payload| < 0x1_0000_0000
    requires Runs(NEW_SENDER, es) && Sends(es) == IpcFrames(ms)
    requires Flatten(chunks) == Flatten(Run(NEW_SENDER, es).written)
    ensures var f := FeedAll(Ipc, Reader([], [], true), chunks); var n := Successes(es);
      && f.open && n <= |ms|
      && |f.delivered| == (if n > 0 && |ms[n - 1].payload| == 0 then n - 1 else n)
      && forall i :: 0 <= i < |f.delivered| ==> |f.delivered[i]| >= IPC_HEADER && ReadIpc(f.delivered[i]) == ms[i]
  {
    hide FeedAll, IpcFrames, Flatten, ScanAll, IpcBytes, ReadIpc, UntilEnd;
    SendQueueSafety(es);
    RunByEvents(es);
    AcceptedAreSent(NEW_SENDER, es);
    var written := Run(NEW_SENDER, es).written;
    assert NEW_SENDER.accepted + Sends(es) == Sends(es);
    IpcPrefix(ms, written);
    var sent := ms[..|written|];
    Chunking(Ipc, chunks);
    ScanOfIpcFrames(sent);
    var n := if |sent| > 0 && |sent[|sent| - 1].payload| == 0 then |sent| - 1 else |sent|;
    IpcFramesCount(sent[..n]);
    forall i | 0 <= i < n
      ensures IpcFrames(sent[..n])[i] == IpcBytes(ms[i]) && ReadIpc(IpcBytes(ms[i])) == ms[i]
    {
      IpcFrameAt(sent[..n], i);
      ReadIpcOfIpcBytes(ms[i]);
    }
  }

  // --------------------------------------------------------- the queue itself

  /** The sending side of a session object. */
  class SendQueue {
    var open: bool
    var queue: seq<Bytes>
    ghost var writes: seq<Bytes>
    ghost var accepted: seq<Bytes>
    ghost var written: seq<Bytes>
    ghost var callbacks: nat

    ghost function View(): Sender
      reads this
    {
      Sender(open, queue, writes, accepted, written, callbacks)
    }

    constructor ()
      ensures View() == NEW_SENDER
    {
      open, queue, writes, accepted, written, callbacks := true, [], [], [], [], 0;
    }

    /** Start a write of the front, unless the session has closed. */
    method DoSend()
      modifies this
      ensures View() == StartWrite(old(View()))
    {
      if !open {
        queue := [];
        return;
      }
      if |queue| == 0 {
        return;
      }
      writes := writes + [queue[0]];
    }

    /** `Send` and `SendIpc` on the strand. */
    method Send(packet: Bytes)
      modifies this
      ensures View() == Step(old(View()), Event.Send(packet))
    {
      if !open {
        return;
      }
      var wasIdle := |queue| == 0;
      queue := queue + [packet];
      accepted := accepted + [packet];
      if wasIdle {
        DoSend();
      }
    }

    /** The completion handler of a write. */
    method OnWritten(ghost which: nat, ok: bool)
      requires which < |writes|
      modifies this
      ensures View() == Step(old(View()), Written(which, ok))
    {
      ghost var packet := writes[which];
      writes := writes[..which] + writes[which + 1..];
      if !ok {
        queue := [];
        Disconnect();
        return;
      }
      written := written + [packet];
      if |queue| != 0 {
        queue := queue[1..];
      }
      if |queue| != 0 {
        DoSend();
      }
    }

    method Disconnect()
      modifies this
      ensures View() == Step(old(View()), Close)
    {
      if !open {
        return;
      }
      open := false;
      callbacks := callbacks + 1;
    }
  }
}
