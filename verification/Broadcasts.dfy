/** Whom a broadcast reaches, and when it has to wait (startSending, Server/server_send.c). */
module Broadcasts {
  import opened Common
  import opened Outgoing

  lemma {:induction false} EarlierRun(ls: seq<Label>, n: nat)
    requires RunOk(ls) && n <= |ls|
    ensures RunOk(ls[..n])
    ensures n < |ls| ==> Enabled(After(ls[..n]), ls[n])
    ensures n < |ls| ==> RunOk(ls[..n + 1]) && After(ls[..n + 1]) == Apply(After(ls[..n]), ls[n])
  {
    hide Enabled, Apply;
    if n == |ls| {
      assert ls[..n] == ls;
    } else {
      var ls0 := ls[..|ls| - 1];
      if n == |ls| - 1 {
        assert ls[..n + 1] == ls;
      } else {
        EarlierRun(ls0, n);
        assert ls0[..n] == ls[..n] && ls0[n] == ls[n] && ls0[..n + 1] == ls[..n + 1];
      }
    }
  }

  // ---------- whom it reaches ----------

  /** The step i has copied the clients for a broadcast, and it has not been freed since. */
  predicate Broadcasting(ls: seq<Label>, i: nat) {
    i < |ls| && ls[i].CopyClients? && forall p :: i < p < |ls| ==> !ls[p].Release?
  }

  /** How far the loop over the clients of s0 has come in s. */
  ghost predicate Underway(s0: State, s: State) {
    && s0.pc.PoppedAll? && s.pc.SendingAll? && s.pc.k == s0.pc.k && s.pc.copy == s0.clients
    && s.pc.i <= |s0.clients| <= |s.clients|
    && forall c :: 0 <= c < s.pc.i && IsRunning(s0, c) && IsRunning(s, c) ==>
         Delivery(c, OfBroadcast(s0.pc.k)) in s.deliveries
  }

  lemma BroadcastBegins(s: State)
    requires Enabled(s, CopyClients)
    ensures Underway(s, Apply(s, CopyClients))
  {
    hide InHand, SlotBuffer, TransmitOne, TransmitAll, OutsideStep, WaitingPc, EndingStep;
  }

  lemma OutsideGoesOn(s0: State, s: State, l: Label)
    requires Underway(s0, s) && Enabled(s, l) && IsOutside(l)
    ensures Underway(s0, Apply(s, l))
  {
    hide InHand, SlotBuffer, TransmitOne, TransmitAll, WaitingPc, EndingStep, SendingStep;
  }

  lemma TransmitGoesOn(s0: State, s: State, whole: bool)
    requires Underway(s0, s) && Enabled(s, Transmit(whole))
    ensures Underway(s0, Apply(s, Transmit(whole)))
  {
    TransmitAllEffect(s, whole);
    hide Apply;
  }

  lemma OnlyTransmit(s: State, l: Label)
    requires s.pc.SendingAll? && Enabled(s, l) && !l.Release?
    ensures IsOutside(l) || l.Transmit?
  {}

  lemma {:induction false} UnderwaySince(ls: seq<Label>, i: nat)
    requires RunOk(ls) && Broadcasting(ls, i)
    ensures RunOk(ls[..i]) && Underway(After(ls[..i]), After(ls))
  {
    hide Enabled, Apply, Underway;
    EarlierRun(ls, i);
    if i == |ls| - 1 {
      assert ls[..i + 1] == ls;
      BroadcastBegins(After(ls[..i]));
    } else {
      var ls0, l := ls[..|ls| - 1], ls[|ls| - 1];
      UnderwaySince(ls0, i);
      assert ls0[..i] == ls[..i];
      var s0, s := After(ls[..i]), After(ls0);
      assert s.pc.SendingAll? by { StillSending(s0, s); }
      OnlyTransmit(s, l);
      if l.Transmit? {
        TransmitGoesOn(s0, s, l.whole);
      } else {
        OutsideGoesOn(s0, s, l);
      }
    }
  }

  lemma StillSending(s0: State, s: State)
    requires Underway(s0, s)
    ensures s0.pc.PoppedAll? && s.pc.SendingAll?
  {}

  /** How often a delivery was made. */
  function Occurrences(ds: seq<Delivery>, d: Delivery): nat {
    if ds == [] then 0 else Occurrences(ds[..|ds| - 1], d) + (if ds[|ds| - 1] == d then 1 else 0)
  }

  /** A delivery of a broadcast is made once if its number is among those the client received, else never. */
  lemma {:induction false} OnceIfReceived(ds: seq<Delivery>, c: nat, k: nat, bound: nat)
    requires Increasing(BroadcastsTo(ds, c), bound)
    ensures Occurrences(ds, Delivery(c, OfBroadcast(k))) == if k in BroadcastsTo(ds, c) then 1 else 0
  {
    if ds != [] {
      var rest, d := ds[..|ds| - 1], ds[|ds| - 1];
      var ks := BroadcastsTo(rest, c);
      assert ds == rest + [d];
      BroadcastAppend(rest, d, c);
      hide BroadcastsTo;
      IncreasingBefore(ks, BroadcastsTo(ds, c), bound);
      OnceIfReceived(rest, c, k, bound);
      if d == Delivery(c, OfBroadcast(k)) {
        NotTwice(ks, k, bound);
      }
    }
  }

  lemma IncreasingBefore(ks: seq<nat>, more: seq<nat>, bound: nat)
    requires Increasing(more, bound) && ks <= more
    ensures Increasing(ks, bound)
  {
    assert forall i :: 0 <= i < |ks| ==> ks[i] == more[i];
  }

  lemma NotTwice(ks: seq<nat>, k: nat, bound: nat)
    requires Increasing(ks + [k], bound)
    ensures k !in ks
  {
    forall i | 0 <= i < |ks| ensures ks[i] != k {
      assert (ks + [k])[i] < (ks + [k])[|ks|];
    }
  }

  lemma {:induction false} ReceivedIfDelivered(ds: seq<Delivery>, c: nat, k: nat)
    requires Delivery(c, OfBroadcast(k)) in ds
    ensures k in BroadcastsTo(ds, c)
  {
    if ds[|ds| - 1] != Delivery(c, OfBroadcast(k)) {
      ReceivedIfDelivered(ds[..|ds| - 1], c, k);
    }
  }

  /** When a broadcast has been sent and is about to be freed, every client that was running when its sending began and
      still is has received it exactly once. */
  lemma BroadcastReachesEveryone(ls: seq<Label>, i: nat, c: nat)
    requires RunOk(ls) && Broadcasting(ls, i) && Enabled(After(ls), Release)
    ensures RunOk(ls[..i]) && After(ls[..i]).pc.PoppedAll?
    ensures InHand(After(ls).pc) == Some(OfBroadcast(After(ls[..i]).pc.k))
    ensures IsRunning(After(ls[..i]), c) && IsRunning(After(ls), c)
            ==> Occurrences(After(ls).deliveries, Delivery(c, OfBroadcast(After(ls[..i]).pc.k))) == 1
  {
    UnderwaySince(ls, i);
    BroadcastsArriveInOrder(ls, c);
    var k, ds := After(ls[..i]).pc.k, After(ls).deliveries;
    OnceIfReceived(ds, c, k, NextBroadcast(After(ls), c));
    if Delivery(c, OfBroadcast(k)) in ds {
      ReceivedIfDelivered(ds, c, k);
    }
    hide RunOk, After, BroadcastsTo, NextBroadcast, Increasing;
  }

  lemma SlotFilled() returns (ls: seq<Label>)
    ensures RunOk(ls) && After(ls) == INITIAL.(clients := [Running], slot := Some(0), broadcasts := 1, pc := Locking)
  {
    hide RunOk, After, SendingStep, EndingStep;
    EmptyRun();
    RunExtends([], AddClient);
    ls := [] + [AddClient];
    RunExtends(ls, SendToEveryone);
    ls := ls + [SendToEveryone];
    RunExtends(ls, ReadStop);
    ls := ls + [ReadStop];
  }

  /** A run in which a client joins and a broadcast reaches it. */
  lemma BroadcastRun() returns (ls: seq<Label>)
    ensures RunOk(ls) && After(ls).deliveries == [Delivery(0, OfBroadcast(0))] && After(ls).pc.Top?
    ensures After(ls).freed == multiset{OfBroadcast(0)}
  {
    hide RunOk, After, OutsideStep, SendingStep, EndingStep;
    ls := SlotFilled();
    RunExtends(ls, LockMessage);
    ls := ls + [LockMessage];
    RunExtends(ls, CheckQueue);
    ls := ls + [CheckQueue];
    RunExtends(ls, CheckSlot);
    ls := ls + [CheckSlot];
    assert After(ls) == INITIAL.(clients := [Running], slot := Some(0), broadcasts := 1, pc := Ready);
    ls := SlotSent(ls);
  }

  lemma SlotSent(ls0: seq<Label>) returns (ls: seq<Label>)
    requires RunOk(ls0) && After(ls0) == INITIAL.(clients := [Running], slot := Some(0), broadcasts := 1, pc := Ready)
    ensures RunOk(ls) && After(ls).deliveries == [Delivery(0, OfBroadcast(0))] && After(ls).pc.Top?
    ensures After(ls).freed == multiset{OfBroadcast(0)}
  {
    hide RunOk, After;
    RunExtends(ls0, Choose);
    ls := ls0 + [Choose];
    RunExtends(ls, TakeSlot);
    ls := ls + [TakeSlot];
    RunExtends(ls, CopyClients);
    ls := ls + [CopyClients];
    RunExtends(ls, Transmit(true));
    ls := ls + [Transmit(true)];
    assert After(ls).deliveries == [Delivery(0, OfBroadcast(0))];
    RunExtends(ls, Release);
    ls := ls + [Release];
  }

  // ---------- when it has to wait ----------

  /** The slot is taken only after the queue was found empty; between the two steps the sender does nothing else. */
  lemma {:induction false} QueueWasEmpty(ls: seq<Label>) returns (j: nat)
    requires RunOk(ls) && After(ls).pc.TakingSlot?
    ensures j < |ls| && ls[j].Choose? && RunOk(ls[..j]) && After(ls[..j]).queue == []
    ensures forall p :: j < p < |ls| ==> IsOutside(ls[p])
  {
    hide Enabled, Apply;
    assert ls != [];
    var ls0, l := ls[..|ls| - 1], ls[|ls| - 1];
    LeadsToSlot(After(ls0), l);
    if l.Choose? {
      j := |ls| - 1;
    } else {
      j := QueueWasEmpty(ls0);
      assert ls0[..j] == ls[..j] && ls0[j] == ls[j];
    }
  }

  lemma OutsideKeepsPlace(s: State, l: Label)
    requires Enabled(s, l) && IsOutside(l)
    ensures Apply(s, l).pc == s.pc
  {
    hide InHand, SlotBuffer, TransmitOne, TransmitAll, WaitingPc, EndingStep, SendingStep;
  }

  lemma IdlingLeadsElsewhere(s: State, l: Label)
    requires Enabled(s, l) && (IsWaiting(l) || IsEnding(l))
    ensures !Apply(s, l).pc.TakingSlot?
  {
    hide InHand, SlotBuffer, OutsideStep, SendingStep, WaitingPc;
  }

  lemma ChoiceLeadsToSlot(s: State, l: Label)
    requires Enabled(s, l) && IsSending(l) && Apply(s, l).pc.TakingSlot?
    ensures l.Choose? && s.queue == []
  {
    assert Apply(s, l) == SendingStep(s, l);
    hide Apply, InHand, Transmitted, TransmitOne, TransmitAll;
  }

  lemma LeadsToSlot(s: State, l: Label)
    requires Enabled(s, l) && Apply(s, l).pc.TakingSlot?
    ensures (l.Choose? && s.queue == []) || (IsOutside(l) && s.pc.TakingSlot?)
  {
    hide Enabled, Apply;
    if IsOutside(l) {
      OutsideKeepsPlace(s, l);
    } else if IsWaiting(l) || IsEnding(l) {
      IdlingLeadsElsewhere(s, l);
    } else {
      ChoiceLeadsToSlot(s, l);
    }
  }

  /** A broadcast is taken to be sent only if the outgoing queue was empty when the sender last looked. */
  lemma BroadcastsWait(ls: seq<Label>, i: nat) returns (j: nat)
    requires RunOk(ls) && i < |ls| && ls[i].TakeSlot?
    ensures j < i && ls[j].Choose? && RunOk(ls[..j]) && After(ls[..j]).queue == []
    ensures forall p :: j < p < i ==> IsOutside(ls[p])
  {
    hide Apply, RunOk, After, IsOutside;
    EarlierRun(ls, i);
    var earlier := ls[..i];
    assert After(earlier).pc.TakingSlot?;
    hide Enabled;
    j := QueueWasEmpty(earlier);
    assert earlier[..j] == ls[..j] && earlier[j] == ls[j];
    forall p | j < p < i ensures IsOutside(ls[p]) {
      assert ls[p] == earlier[p];
    }
  }

  // ---------- what goes before it ----------

  /** The step i has chosen what to send, and it has not been freed since. */
  predicate Chosen(ls: seq<Label>, i: nat) {
    i < |ls| && ls[i].Choose? && forall p :: i < p < |ls| ==> !ls[p].Release?
  }

  predicate InTheHand(s: State, n: nat) {
    (s.pc.PoppedOne? || s.pc.SendingOne? || s.pc.SentOne?) && s.pc.n == n
  }

  lemma HandKeeps(s: State, l: Label, n: nat)
    requires Enabled(s, l) && InTheHand(s, n) && !l.Release?
    ensures InTheHand(Apply(s, l), n)
  {
    hide InHand, SlotBuffer, WaitingPc, EndingStep;
  }

  lemma ChoosesFront(s: State)
    requires Enabled(s, Choose) && s.queue != []
    ensures InTheHand(Apply(s, Choose), s.queue[0])
  {
    hide InHand, SlotBuffer, OutsideStep, WaitingPc, EndingStep;
  }

  /** If anything is queued when the sender chooses, the front of the queue is what it sends and frees next, a waiting
      broadcast or not. */
  lemma {:induction false} QueuedGoesFirst(ls: seq<Label>, i: nat)
    requires RunOk(ls) && Chosen(ls, i) && RunOk(ls[..i]) && After(ls[..i]).queue != []
    ensures InTheHand(After(ls), After(ls[..i]).queue[0])
  {
    hide Enabled, Apply, InTheHand;
    EarlierRun(ls, i);
    if i == |ls| - 1 {
      assert ls[..i + 1] == ls;
      ChoosesFront(After(ls[..i]));
    } else {
      var ls0, l := ls[..|ls| - 1], ls[|ls| - 1];
      assert ls0[..i] == ls[..i];
      QueuedGoesFirst(ls0, i);
      HandKeeps(After(ls0), l, After(ls[..i]).queue[0]);
    }
  }
}
