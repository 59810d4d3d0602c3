/** The sender after stopServer: it goes on to its end, and soon (startSending, Server/server_send.c). */
module Stopping {
  import opened Common
  import opened Outgoing

  /** The steps of the sender thread. */
  predicate IsOwn(l: Label) {
    !IsOutside(l)
  }

  /** At most how many steps a stopped sender has left. */
  function StepsLeft(s: State): nat {
    match s.pc
    case Done => 0
    case Freeing(_) => 1
    case Drained => 2
    case Draining => 3 + |s.queue|
    case Top => 4 + |s.queue|
    case SentOne(_) => 5 + |s.queue|
    case SendingOne(_, _) => 6 + |s.queue|
    case PoppedOne(_) => 7 + |s.queue|
    case SendingAll(_, copy, i) => 5 + |s.queue| + (if i <= |copy| then |copy| - i else 0)
    case PoppedAll(_) => 6 + |s.queue| + |s.clients|
    case TakingSlot => 7 + |s.queue| + |s.clients|
    case Ready => 8 + |s.queue| + |s.clients|
    case TestSlot => 9 + |s.queue| + |s.clients|
    case TestQueue => 10 + |s.queue| + |s.clients|
    case Locking => 11 + |s.queue| + |s.clients|
    case Woken => 4 + |s.queue|
    case Waiting => 5 + |s.queue|
    case BroadcastNull => 0
  }

  lemma WaitingNears(s: State, l: Label)
    requires Enabled(s, l) && s.stopped && IsWaiting(l)
    ensures StepsLeft(Apply(s, l)) < StepsLeft(s)
  {
    hide InHand, SlotBuffer, OutsideStep, SendingStep, EndingStep;
  }

  lemma EndingIsApplied(s: State, l: Label)
    requires Enabled(s, l) && IsEnding(l)
    ensures Apply(s, l) == EndingStep(s, l)
  {
    hide OutsideStep, SendingStep, WaitingPc, EndingStep;
  }

  lemma EndingNears(s: State, l: Label)
    requires Enabled(s, l) && IsEnding(l)
    ensures StepsLeft(Apply(s, l)) < StepsLeft(s)
  {
    EndingIsApplied(s, l);
    hide Apply, InHand, SlotBuffer, Free;
  }

  lemma SendingNears(s: State, l: Label)
    requires Shape(s) && Enabled(s, l) && IsSending(l)
    ensures StepsLeft(Apply(s, l)) < StepsLeft(s)
  {
    assert !(l.TakeSlot? && s.slot.None?);
    assert Apply(s, l) == SendingStep(s, l);
    hide Apply, Shape, InHand, SlotBuffer, Transmitted, TransmitOne, TransmitAll;
  }

  lemma OutsideDelays(s: State, l: Label)
    requires Enabled(s, l) && IsOutside(l)
    ensures StepsLeft(Apply(s, l)) <= StepsLeft(s) + (if l.SendTo? || l.AddClient? then 1 else 0)
  {
    hide InHand, SlotBuffer, WaitingPc, SendingStep, EndingStep;
  }

  lemma StopStays(s: State, l: Label)
    requires Enabled(s, l) && s.stopped
    ensures Apply(s, l).stopped
  {
    hide InHand, SlotBuffer, WaitingPc;
  }

  function OwnSteps(ls: seq<Label>): nat {
    if ls == [] then 0 else OwnSteps(ls[..|ls| - 1]) + (if IsOwn(ls[|ls| - 1]) then 1 else 0)
  }

  /** The calls that give it more to do: a message to drain, a client more to visit. */
  function Delays(ls: seq<Label>): nat {
    if ls == [] then 0
    else
      var l := ls[|ls| - 1];
      Delays(ls[..|ls| - 1]) + (if l.SendTo? || l.AddClient? then 1 else 0)
  }

  /** However the run goes on from a stopped state, the sender takes no more steps than it had left there and one for
      each message or client that has come since: it ends, whatever it was doing. */
  lemma {:induction false} StoppedSenderEnds(ls: seq<Label>, n: nat)
    requires RunOk(ls) && n <= |ls| && RunOk(ls[..n]) && After(ls[..n]).stopped
    ensures After(ls).stopped
    ensures OwnSteps(ls[n..]) + StepsLeft(After(ls)) <= StepsLeft(After(ls[..n])) + Delays(ls[n..])
  {
    hide Apply, Enabled, StepsLeft;
    if n == |ls| {
      assert ls[..n] == ls && ls[n..] == [];
    } else {
      var ls0, l := ls[..|ls| - 1], ls[|ls| - 1];
      assert ls0[..n] == ls[..n] && ls[n..][..|ls[n..]| - 1] == ls0[n..] && ls[n..][|ls[n..]| - 1] == l;
      StoppedSenderEnds(ls0, n);
      ShapeHolds(ls0);
      var s := After(ls0);
      StopStays(s, l);
      hide Shape;
      if IsOutside(l) {
        OutsideDelays(s, l);
      } else if IsWaiting(l) {
        WaitingNears(s, l);
      } else if IsEnding(l) {
        EndingNears(s, l);
      } else {
        SendingNears(s, l);
      }
    }
  }

  /** The sender's next step. */
  function NextStep(s: State): Label {
    match s.pc
    case Top => ReadStop
    case Locking => LockMessage
    case TestQueue => CheckQueue
    case TestSlot => CheckSlot
    case Waiting => Wake
    case Woken => CheckStop
    case Ready => Choose
    case TakingSlot => TakeSlot
    case PoppedOne(_) => CopyClient
    case SendingOne(_, _) => Transmit(true)
    case SentOne(_) => Release
    case PoppedAll(_) => CopyClients
    case SendingAll(_, copy, i) => if i < |copy| then Transmit(true) else Release
    case Draining => if s.queue == [] then DrainEnd else DrainOne
    case Drained => ReadSlot
    case Freeing(_) => FreeSlot
    case Done => FreeSlot
    case BroadcastNull => Release
  }

  /** And until its end it is never stuck. */
  lemma SenderGoesOn(ls: seq<Label>)
    requires RunOk(ls) && !After(ls).pc.Done?
    ensures IsOwn(NextStep(After(ls))) && Enabled(After(ls), NextStep(After(ls)))
  {
    ShapeHolds(ls);
    NextIsEnabled(After(ls));
    hide RunOk, After;
  }

  lemma NextIsEnabled(s: State)
    requires Shape(s) && !s.pc.Done?
    ensures IsOwn(NextStep(s)) && Enabled(s, NextStep(s))
  {}
}
