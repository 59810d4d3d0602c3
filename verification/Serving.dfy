/** How long a client is served and what of it is passed on (startReceivingFromClient, Server/server_receive.c). */
module Serving {
  import opened Common
  import opened Received

  // ---------- what is passed on ----------

  /** The messages of client c that have been read whole. */
  function WholeReads(ls: seq<Label>, c: nat): nat {
    if ls == [] then 0
    else WholeReads(ls[..|ls| - 1], c) + (if ls[|ls| - 1] == Read(c, true) then 1 else 0)
  }

  predicate AllPassed(s: State, c: nat, count: nat) {
    if c < |s.clients| then s.clients[c].passed + (if s.clients[c].receiver.Pushing? then 1 else 0) == count
    else count == 0
  }

  lemma StepPasses(s: State, l: Label, c: nat, count: nat)
    requires Enabled(s, l) && AllPassed(s, c, count)
    ensures AllPassed(Apply(s, l), c, count + (if l == Read(c, true) then 1 else 0))
  {}

  /** Every message read whole has been put in the queue, but for one its receiver may be about to put there. */
  lemma {:induction false} ReadsArePassed(ls: seq<Label>, c: nat)
    requires RunOk(ls)
    ensures AllPassed(After(ls), c, WholeReads(ls, c))
  {
    hide Apply, Enabled, AllPassed;
    if ls == [] {
      NothingRead(c);
    } else {
      ReadsArePassed(ls[..|ls| - 1], c);
      StepPasses(After(ls[..|ls| - 1]), ls[|ls| - 1], c, WholeReads(ls[..|ls| - 1], c));
    }
  }

  lemma NothingRead(c: nat)
    ensures AllPassed(INITIAL, c, 0)
  {}

  // ---------- how long it is served ----------

  /** The receiver has left its loop. */
  predicate HasLeft(s: State, c: nat) {
    && c < |s.clients|
    && (s.clients[c].receiver.Leaving? || s.clients[c].receiver.Closing? || s.clients[c].receiver.Finished?)
  }

  /** The step gives a reason to leave: the client was told to stop, or its connection is broken or ends. */
  predicate Parts(s: State, l: Label, c: nat) {
    || (l == Test(c) && c < |s.clients| && !s.clients[c].status.Running?)
    || l == Poll(c, Broken) || l == Poll(c, BadHeader) || l == Read(c, false)
  }

  ghost predicate HadToLeave(ls: seq<Label>, c: nat)
    requires RunOk(ls)
  {
    ls != [] && (HadToLeave(ls[..|ls| - 1], c) || Parts(After(ls[..|ls| - 1]), ls[|ls| - 1], c))
  }

  /** The steps of a receiver thread. */
  predicate IsReceiving(l: Label) {
    l.Announce? || l.Test? || l.Poll? || l.Read? || l.Push? || l.AnnounceLost? || l.Close?
  }

  lemma DecidingLeaves(s: State, l: Label, c: nat)
    requires Enabled(s, l) && (l.Test? || l.Poll? || l.Read?)
    ensures HasLeft(Apply(s, l), c) <==> HasLeft(s, c) || Parts(s, l, c)
  {
    hide Tried, Popped, AllStopped, Notified, PushedBack, PushedFront, BufferOf;
  }

  lemma ReportingLeaves(s: State, l: Label, c: nat)
    requires Enabled(s, l) && (l.Announce? || l.Push? || l.AnnounceLost? || l.Close?)
    ensures HasLeft(Apply(s, l), c) <==> HasLeft(s, c) || Parts(s, l, c)
  {
    hide Tried, Popped, AllStopped, Notified, Polled, BufferOf;
  }

  lemma OthersLeaveNobody(s: State, l: Label, c: nat)
    requires Enabled(s, l) && !IsReceiving(l)
    ensures HasLeft(Apply(s, l), c) <==> HasLeft(s, c)
  {
    hide Polled, PushedBack, PushedFront, Notified, BufferOf;
  }

  lemma StepLeaves(s: State, l: Label, c: nat)
    requires Enabled(s, l)
    ensures HasLeft(Apply(s, l), c) <==> HasLeft(s, c) || Parts(s, l, c)
  {
    hide Apply, Enabled, HasLeft;
    if l.Test? || l.Poll? || l.Read? {
      DecidingLeaves(s, l, c);
    } else if IsReceiving(l) {
      ReportingLeaves(s, l, c);
    } else {
      OthersLeaveNobody(s, l, c);
    }
  }

  /** A receiver leaves its loop exactly when it must: no client is dropped that runs and whose connection is whole. */
  lemma {:induction false} LeavesIffItMust(ls: seq<Label>, c: nat)
    requires RunOk(ls)
    ensures HasLeft(After(ls), c) <==> HadToLeave(ls, c)
  {
    hide Apply, Enabled, HasLeft, Parts;
    if ls == [] {
      NobodyLeft(c);
    } else {
      LeavesIffItMust(ls[..|ls| - 1], c);
      StepLeaves(After(ls[..|ls| - 1]), ls[|ls| - 1], c);
    }
  }

  lemma NobodyLeft(c: nat)
    ensures !HasLeft(INITIAL, c)
  {}

  // ---------- who is told to stop ----------

  /** The step tells client c to stop: for a failed send or a lost connection, or because the server stops. */
  predicate Tells(s: State, l: Label, c: nat) {
    c < |s.clients| && (l == Signal(c) || l.StopAll?)
  }

  lemma TellingStops(s: State, l: Label, c: nat)
    requires Enabled(s, l) && Tells(s, l, c)
    ensures c < |Apply(s, l).clients| && !Apply(s, l).clients[c].status.Running?
  {}

  /** A client told to stop is seen as running by nobody from then on. */
  lemma ToldClientsStop(ls: seq<Label>, i: nat, c: nat)
    requires RunOk(ls) && i < |ls| && RunOk(ls[..i]) && RunOk(ls[..i + 1])
    requires Tells(After(ls[..i]), ls[i], c)
    ensures c < |After(ls).clients| && !After(ls).clients[c].status.Running?
  {
    assert ls[..i + 1][..i] == ls[..i];
    TellingStops(After(ls[..i]), ls[i], c);
    NeverRunsAgain(ls, i + 1, c);
  }
}
