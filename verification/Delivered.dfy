/** The bytes the sender thread puts on a client's connection in a whole run of the server, and what they decode to
    (sendMessageTo in Server/server_send.c, against the framing the client reads). */
module Delivered {
  import opened Common
  import opened Bytes
  import opened Framing
  import Outgoing

  type Contents = Outgoing.Buffer -> Payload

  ghost predicate Sized(p: Contents) {
    forall b :: Sendable(p(b))
  }

  // ---------- what reached a client ----------

  /** The messages delivered whole to one client, in order. */
  function Messages(ds: seq<Outgoing.Delivery>, c: nat, p: Contents): seq<Payload> {
    if ds == [] then []
    else
      var ms := Messages(ds[..|ds| - 1], c, p);
      if ds[|ds| - 1].client == c then ms + [p(ds[|ds| - 1].what)] else ms
  }

  /** The client the sender is about to try, the copy of its status, and the message. */
  predicate Trying(s: Outgoing.State, c: nat) {
    || (s.pc.SendingOne? && s.pc.n < |s.sends| && s.sends[s.pc.n] == c && s.pc.status.Running?)
    || (s.pc.SendingAll? && s.pc.i == c < |s.pc.copy| && s.pc.copy[c].Running?)
  }

  function Message(s: Outgoing.State): Outgoing.Buffer
    requires s.pc.SendingOne? || s.pc.SendingAll?
  {
    if s.pc.SendingOne? then Outgoing.OfSend(s.pc.n) else Outgoing.OfBroadcast(s.pc.k)
  }

  /** How much of a frame gets out before a send fails: never all of it. */
  function CutShort(frame: Bytes, part: nat): Bytes {
    if part < |frame| then frame[..part] else []
  }

  /** What one step writes on the connection of client c. */
  function Written(s: Outgoing.State, l: Outgoing.Label, c: nat, p: Contents, part: nat): Bytes {
    if !l.Transmit? || !Trying(s, c) then []
    else if l.whole then Frame(p(Message(s)))
    else CutShort(Frame(p(Message(s))), part)
  }

  /** All that a run has written there; `parts` says how far each failing send got. */
  function Sent(ls: seq<Outgoing.Label>, c: nat, p: Contents, parts: nat -> nat): Bytes
    requires Outgoing.RunOk(ls)
  {
    if ls == [] then []
    else
      var ls0 := ls[..|ls| - 1];
      Sent(ls0, c, p, parts) + Written(Outgoing.After(ls0), ls[|ls| - 1], c, p, parts(|ls0|))
  }

  // ---------- after a failure ----------

  /** The sender will not try this client again. */
  predicate GivenUp(s: Outgoing.State, c: nat) {
    && c < |s.clients| && !s.clients[c].Running?
    && !(s.pc.SendingOne? && s.pc.n < |s.sends| && s.sends[s.pc.n] == c && s.pc.status.Running?)
    && !(s.pc.SendingAll? && s.pc.i <= c < |s.pc.copy| && s.pc.copy[c].Running?)
  }

  lemma GivenUpOutside(s: Outgoing.State, l: Outgoing.Label, c: nat)
    requires Outgoing.QueueShape(s) && Outgoing.Enabled(s, l) && GivenUp(s, c)
    requires Outgoing.IsOutside(l) || Outgoing.IsEnding(l) || Outgoing.IsWaiting(l)
    ensures GivenUp(Outgoing.Apply(s, l), c)
  {
    hide Outgoing.InHand, Outgoing.SlotBuffer, Outgoing.SendingStep;
  }

  lemma GivenUpTransmit(s: Outgoing.State, whole: bool, c: nat)
    requires Outgoing.QueueShape(s) && Outgoing.Enabled(s, Outgoing.Transmit(whole)) && GivenUp(s, c)
    ensures GivenUp(Outgoing.Apply(s, Outgoing.Transmit(whole)), c)
  {
    if s.pc.SendingOne? {
      Outgoing.TransmitOneEffect(s, whole);
    } else {
      Outgoing.TransmitAllEffect(s, whole);
    }
    hide Outgoing.Apply;
  }

  lemma GivenUpSending(s: Outgoing.State, l: Outgoing.Label, c: nat)
    requires Outgoing.QueueShape(s) && Outgoing.Enabled(s, l) && GivenUp(s, c)
    requires Outgoing.IsSending(l) && !l.Transmit?
    ensures GivenUp(Outgoing.Apply(s, l), c)
  {
    hide Outgoing.InHand, Outgoing.SlotBuffer, Outgoing.OutsideStep, Outgoing.WaitingPc, Outgoing.EndingStep;
    hide Outgoing.TransmitOne, Outgoing.TransmitAll;
  }

  lemma GivenUpForGood(s: Outgoing.State, l: Outgoing.Label, c: nat)
    requires Outgoing.QueueShape(s) && Outgoing.Enabled(s, l) && GivenUp(s, c)
    ensures GivenUp(Outgoing.Apply(s, l), c) && !(l.Transmit? && Trying(s, c))
  {
    hide Outgoing.Apply, Outgoing.QueueShape, Outgoing.Enabled;
    if l.Transmit? {
      GivenUpTransmit(s, l.whole, c);
    } else if Outgoing.IsSending(l) {
      GivenUpSending(s, l, c);
    } else {
      GivenUpOutside(s, l, c);
    }
  }

  // ---------- one step ----------

  lemma MessagesGrow(ds: seq<Outgoing.Delivery>, d: Outgoing.Delivery, c: nat, p: Contents)
    ensures Messages(ds + [d], c, p) == Messages(ds, c, p) + (if d.client == c then [p(d.what)] else [])
  {
    assert (ds + [d])[..|ds|] == ds;
  }

  /** A send that goes out whole adds its message, one that fails gives the client up, and nothing else matters. */
  lemma StepDelivers(s: Outgoing.State, l: Outgoing.Label, c: nat, p: Contents)
    requires Outgoing.Enabled(s, l)
    ensures var t, tried := Outgoing.Apply(s, l), l.Transmit? && Trying(s, c);
            && Messages(t.deliveries, c, p)
               == Messages(s.deliveries, c, p) + (if tried && l.whole then [p(Message(s))] else [])
            && (tried && !l.whole ==> GivenUp(t, c))
  {
    var t := Outgoing.Apply(s, l);
    if l.Transmit? {
      TransmitDelivers(s, l.whole, c, p);
    } else {
      NothingDelivered(s, l);
    }
    hide Outgoing.Apply, Outgoing.Enabled, Messages;
  }

  lemma SendingDeliversNothing(s: Outgoing.State, l: Outgoing.Label)
    requires Outgoing.Enabled(s, l) && Outgoing.IsSending(l) && !l.Transmit?
    ensures Outgoing.Apply(s, l).deliveries == s.deliveries
  {
    hide Outgoing.InHand, Outgoing.TransmitOne, Outgoing.TransmitAll, Outgoing.WaitingPc;
    hide Outgoing.OutsideStep, Outgoing.EndingStep;
  }

  lemma OthersDeliverNothing(s: Outgoing.State, l: Outgoing.Label)
    requires Outgoing.Enabled(s, l) && !Outgoing.IsSending(l)
    ensures Outgoing.Apply(s, l).deliveries == s.deliveries
  {
    hide Outgoing.InHand, Outgoing.SlotBuffer, Outgoing.WaitingPc, Outgoing.SendingStep;
    hide Outgoing.AfterDrain, Outgoing.HoldsMessageMutex;
  }

  lemma NothingDelivered(s: Outgoing.State, l: Outgoing.Label)
    requires Outgoing.Enabled(s, l) && !l.Transmit?
    ensures Outgoing.Apply(s, l).deliveries == s.deliveries
  {
    hide Outgoing.Apply, Outgoing.Enabled, Outgoing.IsSending;
    if Outgoing.IsSending(l) {
      SendingDeliversNothing(s, l);
    } else {
      OthersDeliverNothing(s, l);
    }
  }

  lemma TransmitDelivers(s: Outgoing.State, whole: bool, c: nat, p: Contents)
    requires Outgoing.Enabled(s, Outgoing.Transmit(whole))
    ensures var t := Outgoing.Apply(s, Outgoing.Transmit(whole));
            && Messages(t.deliveries, c, p)
               == Messages(s.deliveries, c, p) + (if Trying(s, c) && whole then [p(Message(s))] else [])
            && (Trying(s, c) && !whole ==> GivenUp(t, c))
  {
    if s.pc.SendingOne? {
      Outgoing.TransmitOneEffect(s, whole);
      MessagesGrow(s.deliveries, Outgoing.Delivery(s.sends[s.pc.n], Message(s)), c, p);
    } else {
      Outgoing.TransmitAllEffect(s, whole);
      MessagesGrow(s.deliveries, Outgoing.Delivery(s.pc.i, Message(s)), c, p);
    }
    hide Outgoing.Apply, Messages;
  }

  // ---------- whole runs ----------

  lemma StreamGrows(ms: seq<Payload>, m: Payload)
    ensures Stream(ms + [m]) == Stream(ms) + Frame(m)
  {
    hide Frame;
    if ms == [] {
      assert Stream([m]) == Frame(m) + Stream([]);
    } else {
      StreamGrows(ms[1..], m);
      assert (ms + [m])[1..] == ms[1..] + [m];
    }
  }

  /** What a connection carries: the frames of the messages delivered, and after them at most the beginning of one
      more, which was the last. */
  ghost predicate Carries(s: Outgoing.State, c: nat, p: Contents, sent: Bytes, tail: Bytes, last: Payload) {
    && sent == Stream(Messages(s.deliveries, c, p)) + tail
    && Sendable(last) && tail < Frame(last)
    && (tail != [] ==> GivenUp(s, c))
  }

  lemma StepCarries(s: Outgoing.State, l: Outgoing.Label, c: nat, p: Contents, part: nat,
                    sent: Bytes, tail: Bytes, last: Payload)
    returns (tail': Bytes, last': Payload)
    requires Outgoing.QueueShape(s) && Outgoing.Enabled(s, l) && Sized(p) && Carries(s, c, p, sent, tail, last)
    ensures Carries(Outgoing.Apply(s, l), c, p, sent + Written(s, l, c, p, part), tail', last')
  {
    hide Outgoing.Apply, Outgoing.Enabled, Outgoing.QueueShape, Messages, Stream, Frame, GivenUp;
    var t, ms := Outgoing.Apply(s, l), Messages(s.deliveries, c, p);
    tail', last' := tail, last;
    StepDelivers(s, l, c, p);
    if tail != [] {
      GivenUpForGood(s, l, c);
      assert Messages(t.deliveries, c, p) == ms && sent + [] == sent;
    } else if l.Transmit? && Trying(s, c) {
      var what := p(Message(s));
      assert sent == Stream(ms);
      StreamGrows(ms, what);
      if l.whole {
        assert sent + Frame(what) == Stream(ms + [what]) + [];
      } else {
        last', tail' := what, CutShort(Frame(what), part);
        FrameIsLonger(what, part);
        assert Messages(t.deliveries, c, p) == ms;
      }
    } else {
      assert Messages(t.deliveries, c, p) == ms && sent + [] == sent;
    }
  }

  lemma {:induction false} SentSoFar(ls: seq<Outgoing.Label>, c: nat, p: Contents, parts: nat -> nat)
    returns (tail: Bytes, last: Payload)
    requires Outgoing.RunOk(ls) && Sized(p)
    ensures Carries(Outgoing.After(ls), c, p, Sent(ls, c, p, parts), tail, last)
  {
    hide Outgoing.Apply, Outgoing.Enabled, Written, Carries;
    if ls == [] {
      tail, last := NothingSent(c, p);
    } else {
      var ls0, l := ls[..|ls| - 1], ls[|ls| - 1];
      tail, last := SentSoFar(ls0, c, p, parts);
      Outgoing.ShapeHolds(ls0);
      hide Outgoing.QueueShape, Outgoing.SlotShape, Outgoing.ControlShape, Outgoing.ShutdownShape;
      tail, last := StepCarries(Outgoing.After(ls0), l, c, p, parts(|ls0|), Sent(ls0, c, p, parts), tail, last);
    }
  }

  lemma NothingSent(c: nat, p: Contents) returns (tail: Bytes, last: Payload)
    ensures Carries(Outgoing.INITIAL, c, p, [], tail, last)
  {
    tail, last := [], [];
    FrameIsLonger(last, 0);
    hide Frame;
  }

  lemma FrameIsLonger(m: Payload, part: nat)
    ensures CutShort(Frame(m), part) < Frame(m)
  {
    assert |LittleEndian(|m|, 4)| == 4;
    hide LittleEndian;
  }

  lemma AllSized(ds: seq<Outgoing.Delivery>, c: nat, p: Contents)
    requires Sized(p)
    ensures AllSendable(Messages(ds, c, p))
  {
    hide Sendable;
    if ds != [] {
      AllSized(ds[..|ds| - 1], c, p);
    }
  }

  /** What the client decodes from any part of the bytes it has been sent is a prefix of the messages delivered to it;
      from all of them it decodes exactly these. */
  lemma ClientsDecodeDeliveries(ls: seq<Outgoing.Label>, c: nat, p: Contents, parts: nat -> nat, arrived: Bytes)
    requires Outgoing.RunOk(ls) && Sized(p) && arrived <= Sent(ls, c, p, parts)
    ensures Decode(arrived) <= Messages(Outgoing.After(ls).deliveries, c, p)
    ensures arrived == Sent(ls, c, p, parts) ==> Decode(arrived) == Messages(Outgoing.After(ls).deliveries, c, p)
  {
    var tail, last := SentSoFar(ls, c, p, parts);
    var ds := Outgoing.After(ls).deliveries;
    AllSized(ds, c, p);
    hide Outgoing.RunOk, Outgoing.After, Sent, Decode, Stream, Frame, Messages, GivenUp, Sized;
    CutsDecodeToPrefixes(Messages(ds, c, p), last, tail, arrived);
  }
}
