/** The data that Server/server_send.c keeps, and the code of its locked regions, proved to do what the steps of the
    sending system say. */
module Sender {
  import opened Common
  import opened Outgoing
  import Deque

  /** What a turn of the sender loop found to send. */
  datatype Next = One(n: nat) | All(k: nat) | NullMessage

  /** The state after the drain loop: all steps DrainOne, one for each message left. */
  function DrainAll(s: State): (t: State)
    requires s.pc.Draining?
    ensures t.queue == [] && t.pc.Draining? && t.slot == s.slot
    decreases |s.queue|
  {
    if s.queue == [] then s else DrainAll(Apply(s, DrainOne))
  }

  /** The state when the sender thread has run to its end undisturbed. */
  function Ended(s: State): State
    requires s.pc.Draining?
  {
    Apply(Apply(Apply(DrainAll(s), DrainEnd), ReadSlot), FreeSlot)
  }

  lemma AtDrainEnd(s: State)
    requires s.pc.Draining? && s.queue == []
    ensures Enabled(s, DrainEnd) && Apply(s, DrainEnd) == s.(pc := Drained)
  {
    hide OutsideStep, WaitingPc, SendingStep;
  }

  lemma AtReadSlot(s: State)
    requires s.pc.Drained?
    ensures Enabled(s, ReadSlot) && Apply(s, ReadSlot) == s.(pc := Freeing(s.slot), dangling := s.slot.Some?)
  {
    hide OutsideStep, WaitingPc, SendingStep;
  }

  lemma AtFreeSlot(s: State)
    requires s.pc.Freeing?
    ensures Enabled(s, FreeSlot) && Apply(s, FreeSlot)
        == s.(pc := Done, freed := Common.Free(s.freed, SlotBuffer(s.pc.last)))
  {
    assert InHand(s.pc) == SlotBuffer(s.pc.last);
    hide SlotBuffer, InHand, Common.Free, OutsideStep, WaitingPc, SendingStep;
  }

  lemma EndedFreesSlot(s: State)
    requires s.pc.Draining?
    ensures var t := DrainAll(s);
            Ended(s).queue == t.queue && Ended(s).slot == t.slot
            && Ended(s).freed == Common.Free(t.freed, SlotBuffer(t.slot))
  {
    hide DrainAll, Apply, Enabled, SlotBuffer;
    AtDrainEnd(DrainAll(s));
    AtReadSlot(Apply(DrainAll(s), DrainEnd));
    AtFreeSlot(Apply(Apply(DrainAll(s), DrainEnd), ReadSlot));
  }

  class Mailbox {
    const queue: Deque.Queue<nat>
    var slot: Option<nat>
    ghost var freed: multiset<Buffer>

    /** The fields are those of the system's state `s`. */
    ghost predicate Matches(s: State)
      reads this, queue, queue.nodes
    {
      queue.Valid() && queue.Contents() == s.queue && slot == s.slot && freed == s.freed
    }

    constructor ()
      ensures Matches(INITIAL) && fresh(queue)
    {
      queue := new Deque.Queue();
      slot := None;
      freed := multiset{};
    }

    /** sendToEveryone: the message waiting in the slot is freed and replaced. */
    method SendToEveryone(message: nat, ghost s: State)
      requires Matches(s) && Enabled(s, Label.SendToEveryone) && message == s.broadcasts
      modifies this
      ensures Matches(Apply(s, Label.SendToEveryone))
    {
      FreeSlot();
      slot := Some(message);
    }

    method SendTo(message: nat, client: nat, ghost s: State)
      requires Matches(s) && Enabled(s, Label.SendTo(client)) && message == |s.sends|
      modifies queue, queue.nodes
      ensures Matches(Apply(s, Label.SendTo(client)))
    {
      queue.PushBack(message);
    }

    method PopMessageToEveryone() returns (message: Option<nat>)
      modifies this`slot
      ensures message == old(slot) && slot == None
    {
      message := slot;
      slot := None;
    }

    /** The choice of the sender loop: a queued message if there is one, else the broadcast. */
    method TakeNext(ghost s: State) returns (next: Next)
      requires Matches(s) && Enabled(s, Choose)
      modifies this`slot, queue, queue.nodes
      ensures var t := Apply(s, Choose);
              if t.pc.PoppedOne? then next == One(t.pc.n) && Matches(t)
              else
                && Matches(Apply(t, TakeSlot))
                && next == (if t.slot.Some? then All(t.slot.value) else NullMessage)
    {
      if !queue.IsEmpty() {
        var n := queue.PopFront();
        assert s.queue == [n] + queue.Contents();
        next := One(n);
      } else {
        assert s.queue == [];
        var message := PopMessageToEveryone();
        next := if message.Some? then All(message.value) else NullMessage;
      }
    }

    /** After sending, the message is freed. */
    method Free(message: Buffer, ghost s: State)
      requires Matches(s) && Enabled(s, Label.Release) && InHand(s.pc) == Some(message)
      modifies this`freed
      ensures Matches(Apply(s, Label.Release))
    {
      freed := Common.Free(freed, Some(message));
    }

    method FreeSlot()
      modifies this`freed
      ensures freed == Common.Free(old(freed), SlotBuffer(slot))
    {
      freed := Common.Free(freed, SlotBuffer(slot));
    }

    /** One turn of the drain loop. */
    method FreeFirst(ghost s: State)
      requires Matches(s) && Enabled(s, DrainOne)
      modifies this`freed, queue, queue.nodes
      ensures Matches(Apply(s, DrainOne)) && queue.nodes == old(queue.nodes)[1..]
    {
      hide OutsideStep, WaitingPc, SendingStep, Common.Free;
      var n := queue.PopFront();
      assert s.queue == [n] + queue.Contents();
      freed := Common.Free(freed, Some(OfSend(n)));
    }

    method Drain(ghost s: State)
      requires Matches(s) && s.pc.Draining?
      modifies this`freed, queue, queue.nodes
      ensures Matches(DrainAll(s))
    {
      hide Enabled, Apply;
      ghost var now := s;
      while !queue.IsEmpty()
        invariant Matches(now) && now.pc.Draining? && DrainAll(now) == DrainAll(s)
        invariant |queue.nodes| <= |old(queue.nodes)|
        invariant queue.nodes == old(queue.nodes)[|old(queue.nodes)| - |queue.nodes|..]
        decreases |queue.nodes|
      {
        DrainGoesOn(now);
        FreeFirst(now);
        now := Apply(now, DrainOne);
      }
    }

    /** What the thread does when it leaves its loop: free every queued message, then the one in the slot. */
    method Finish(ghost s: State)
      requires Matches(s) && s.pc.Draining?
      modifies this, queue, queue.nodes
      ensures Matches(Ended(s))
    {
      hide Ended, DrainAll, Apply, Enabled, Common.Free, SlotBuffer;
      Drain(s);
      EndedFreesSlot(s);
      FreeSlot();
    }
  }

  lemma DrainGoesOn(s: State)
    requires s.pc.Draining? && s.queue != []
    ensures Enabled(s, DrainOne) && Apply(s, DrainOne).pc.Draining? && DrainAll(Apply(s, DrainOne)) == DrainAll(s)
  {}
}
