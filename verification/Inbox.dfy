/** The received queue of Server/server_receive.c as the linked queue it is, proved to do what the steps of the
    receiving system say. */
module Inbox {
  import opened Common
  import opened Received
  import Deque

  /** The state after destroyReceivedQueue has emptied the queue: one step DestroyOne for each entry left. */
  function DestroyAll(s: State): (t: State)
    requires s.phase.Joined?
    ensures t.queue == [] && t.phase.Joined? && t.pushed == s.pushed && t.lost == s.lost
    ensures t.out == s.out + s.queue
    decreases |s.queue|
  {
    if s.queue == [] then s
    else
      var t := Apply(s, DestroyOne);
      assert t.out + t.queue == s.out + s.queue;
      DestroyAll(t)
  }

  class Entries {
    const queue: Deque.Queue<Entry>
    ghost var freed: multiset<Buffer>

    ghost predicate Matches(s: State)
      reads this, queue, queue.nodes
    {
      queue.Valid() && queue.Contents() == s.queue && freed == s.freed
    }

    constructor ()
      ensures Matches(INITIAL) && fresh(queue)
    {
      queue := new Deque.Queue();
      freed := multiset{};
    }

    method Announce(c: nat, ghost s: State)
      requires Matches(s) && Enabled(s, Label.Announce(c))
      modifies queue, queue.nodes
      ensures Matches(Apply(s, Label.Announce(c)))
    {
      queue.PushBack(New(c));
    }

    method Push(c: nat, n: nat, ghost s: State)
      requires Matches(s) && Enabled(s, Label.Push(c)) && n == s.clients[c].receiver.n
      modifies queue, queue.nodes
      ensures Matches(Apply(s, Label.Push(c)))
    {
      queue.PushBack(Message(c, n));
    }

    method AnnounceLost(c: nat, ghost s: State)
      requires Matches(s) && Enabled(s, Label.AnnounceLost(c))
      modifies queue, queue.nodes
      ensures Matches(Apply(s, Label.AnnounceLost(c)))
    {
      queue.PushFront(Lost(c));
    }

    /** What take does under the queue's lock, before it waits or after it is woken. */
    method Try(ghost s: State) returns (ready: bool, entry: Entry)
      requires Matches(s) && Enabled(s, Take)
      modifies queue, queue.nodes
      ensures var t := Apply(s, Take);
              Matches(t) && ready == t.consumer.Holding? && (ready ==> t.consumer.entry == entry)
    {
      ready, entry := false, Lost(0);
      if !queue.IsEmpty() {
        entry := queue.PopFront();
        ready := true;
        assert s.queue == [entry] + queue.Contents();
      }
    }

    method DestroyFirst(ghost s: State)
      requires Matches(s) && Enabled(s, DestroyOne)
      modifies this`freed, queue, queue.nodes
      ensures Matches(Apply(s, DestroyOne)) && queue.nodes == old(queue.nodes)[1..]
    {
      hide Common.Free, BufferOf;
      var entry := queue.PopFront();
      assert s.queue == [entry] + queue.Contents();
      freed := Common.Free(freed, BufferOf(entry));
    }

    method Destroy(ghost s: State)
      requires Matches(s) && s.phase.Joined?
      modifies this`freed, queue, queue.nodes
      ensures Matches(DestroyAll(s))
    {
      hide Enabled, Apply;
      ghost var now := s;
      while !queue.IsEmpty()
        invariant Matches(now) && now.phase.Joined? && DestroyAll(now) == DestroyAll(s)
        invariant |queue.nodes| <= |old(queue.nodes)|
        invariant queue.nodes == old(queue.nodes)[|old(queue.nodes)| - |queue.nodes|..]
        decreases |queue.nodes|
      {
        DestroyGoesOn(now);
        DestroyFirst(now);
        now := Apply(now, DestroyOne);
      }
    }
  }

  lemma DestroyGoesOn(s: State)
    requires s.phase.Joined? && s.queue != []
    ensures Enabled(s, DestroyOne) && Apply(s, DestroyOne).phase.Joined?
    ensures DestroyAll(Apply(s, DestroyOne)) == DestroyAll(s)
  {}
}
