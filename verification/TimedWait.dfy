/** When take returns EMPTY (Server/server_receive.c: take, waitForMessage): only a signal or a spurious wakeup ends
    the wait before its deadline, and after the deadline the queue is not looked at again. */
module TimedWait {
  import opened Received

  predicate Pushes(l: Label) {
    l.Announce? || l.Push? || l.AnnounceLost?
  }

  /** Of the pushes only that of a message signals the condition variable. */
  predicate Wakens(l: Label) {
    l.Push? || l.Spurious?
  }

  /** The host has the queue's lock again. */
  predicate Relocks(l: Label) {
    l.Take? || l.Wake? || l.TimeOut?
  }

  /** With its step k - 1 the run sent the host to wait, and the host has not had the lock since. */
  ghost predicate Waits(ls: seq<Label>, k: nat) {
    && RunOk(ls) && 0 < k <= |ls| && RunOk(ls[..k])
    && (ls[k - 1].Take? || ls[k - 1].Wake?) && After(ls[..k]).consumer.Blocked?
    && forall i :: k <= i < |ls| ==> !Relocks(ls[i])
  }

  /** The deadline passed before anything woke the host. */
  predicate DeadlineFirst(ls: seq<Label>, k: nat) {
    exists d :: k <= d < |ls| && ls[d].Deadline? && forall p :: k <= p < d ==> !Wakens(ls[p])
  }

  /** Something woke the host before the deadline passed. */
  predicate WokenFirst(ls: seq<Label>, k: nat) {
    exists d :: k <= d < |ls| && Wakens(ls[d]) && forall p :: k <= p < d ==> !ls[p].Deadline?
  }

  predicate PushedSince(ls: seq<Label>, k: nat) {
    exists p :: k <= p < |ls| && Pushes(ls[p])
  }

  /** Every entry pushed since then was pushed without a signal, or after the deadline. */
  predicate PushedUnnoticed(ls: seq<Label>, k: nat) {
    forall p :: k <= p < |ls| && Pushes(ls[p]) ==> !Wakens(ls[p]) || exists d :: k <= d < p && ls[d].Deadline?
  }

  /** A spurious wakeup came only after the deadline. */
  predicate SpuriousTooLate(ls: seq<Label>, k: nat) {
    forall p :: k <= p < |ls| && ls[p].Spurious? ==> exists d :: k <= d < p && ls[d].Deadline?
  }

  predicate NotDestroying(ls: seq<Label>, k: nat) {
    forall p :: k <= p < |ls| ==> !ls[p].DestroyOne?
  }

  // ---------- one more step ----------

  lemma OneMoreLabel(ls: seq<Label>, l: Label)
    ensures forall p :: 0 <= p < |ls| ==> (ls + [l])[p] == ls[p]
    ensures (ls + [l])[|ls|] == l
  {}

  lemma OneMoreDeadline(ls: seq<Label>, l: Label, k: nat)
    requires k <= |ls|
    ensures DeadlineFirst(ls + [l], k)
            <==> DeadlineFirst(ls, k) || (l.Deadline? && forall p :: k <= p < |ls| ==> !Wakens(ls[p]))
  {
    hide Wakens;
    OneMoreLabel(ls, l);
    if DeadlineFirst(ls, k) {
      var d :| k <= d < |ls| && ls[d].Deadline? && forall p :: k <= p < d ==> !Wakens(ls[p]);
      assert (ls + [l])[d].Deadline?;
    }
  }

  lemma OneMoreWakening(ls: seq<Label>, l: Label, k: nat)
    requires k <= |ls|
    ensures WokenFirst(ls + [l], k)
            <==> WokenFirst(ls, k) || (Wakens(l) && forall p :: k <= p < |ls| ==> !ls[p].Deadline?)
  {
    hide Wakens;
    OneMoreLabel(ls, l);
    if WokenFirst(ls, k) {
      var d :| k <= d < |ls| && Wakens(ls[d]) && forall p :: k <= p < d ==> !ls[p].Deadline?;
      assert Wakens((ls + [l])[d]);
    }
  }

  lemma OneMorePush(ls: seq<Label>, l: Label, k: nat)
    requires k <= |ls|
    ensures PushedSince(ls + [l], k) <==> PushedSince(ls, k) || Pushes(l)
  {
    hide Pushes;
    OneMoreLabel(ls, l);
    if PushedSince(ls, k) {
      var p :| k <= p < |ls| && Pushes(ls[p]);
      assert Pushes((ls + [l])[p]);
    }
  }

  /** What the labels since the wait began say about the host. */
  ghost predicate FateTold(ls: seq<Label>, k: nat, c: Consumer) {
    && (c.Blocked? <==> forall p :: k <= p < |ls| ==> !Wakens(ls[p]) && !ls[p].Deadline?)
    && (c.Expired? <==> DeadlineFirst(ls, k))
    && (c.Signalled? <==> WokenFirst(ls, k))
    && (c.Blocked? || c.Expired? || c.Signalled?)
  }

  lemma WaitStep(s: State, l: Label)
    requires Enabled(s, l) && !Relocks(l) && (s.consumer.Blocked? || s.consumer.Expired? || s.consumer.Signalled?)
    ensures var c := Apply(s, l).consumer;
            c == if s.consumer.Blocked? && Wakens(l) then Signalled
                 else if s.consumer.Blocked? && l.Deadline? then Expired
                 else s.consumer
    ensures l.Deadline? ==> s.consumer.Blocked?
  {}

  lemma QueueStep(s: State, l: Label)
    requires Enabled(s, l) && !Relocks(l) && !l.DestroyOne?
    ensures Apply(s, l).queue != [] <==> s.queue != [] || Pushes(l)
  {}

  lemma FateStep(ls: seq<Label>, l: Label, k: nat, c: Consumer, c': Consumer)
    requires k <= |ls| && FateTold(ls, k, c)
    requires c' == if c.Blocked? && Wakens(l) then Signalled else if c.Blocked? && l.Deadline? then Expired else c
    requires l.Deadline? ==> c.Blocked?
    ensures FateTold(ls + [l], k, c')
  {
    OneMoreDeadline(ls, l, k);
    OneMoreWakening(ls, l, k);
    OneMoreLabel(ls, l);
    hide DeadlineFirst, WokenFirst;
    var ms := ls + [l];
    assert !(Wakens(l) && l.Deadline?);
    hide Wakens;
    if c'.Blocked? {
      assert forall p :: k <= p < |ms| ==> !Wakens(ms[p]) && !ms[p].Deadline?;
    }
    if c.Signalled? {
      WokenIsNotExpired(ls, k);
    } else if c.Expired? {
      WokenIsNotExpired(ls, k);
    }
  }

  lemma WokenIsNotExpired(ls: seq<Label>, k: nat)
    ensures DeadlineFirst(ls, k) ==> exists d :: k <= d < |ls| && ls[d].Deadline?
    ensures WokenFirst(ls, k) ==> exists d :: k <= d < |ls| && Wakens(ls[d])
  {}

  /** The labels of the run decide whether the host is still blocked, woken, or past its deadline, and whether there
      is anything in the queue. */
  lemma {:induction false} FateOfWait(ls: seq<Label>, k: nat)
    requires Waits(ls, k)
    ensures FateTold(ls, k, After(ls).consumer)
    ensures NotDestroying(ls, k) ==> (After(ls).queue != [] <==> PushedSince(ls, k))
  {
    hide Enabled, Apply, FateTold, PushedSince;
    if k == |ls| {
      assert ls[..k] == ls;
      WaitBegins(ls);
    } else {
      var ls0, l := ls[..|ls| - 1], ls[|ls| - 1];
      assert ls == ls0 + [l] && ls0[..k] == ls[..k];
      FateOfWait(ls0, k);
      var s := After(ls0);
      assert s.consumer.Blocked? || s.consumer.Expired? || s.consumer.Signalled? by {
        FateIsWaiting(ls0, k, s.consumer);
      }
      WaitStep(s, l);
      FateStep(ls0, l, k, s.consumer, After(ls).consumer);
      OneMorePush(ls0, l, k);
      if NotDestroying(ls, k) {
        assert NotDestroying(ls0, k) && !l.DestroyOne?;
        QueueStep(s, l);
      }
    }
  }

  lemma FateIsWaiting(ls: seq<Label>, k: nat, c: Consumer)
    requires FateTold(ls, k, c)
    ensures c.Blocked? || c.Expired? || c.Signalled?
  {}

  lemma WaitBegins(ls: seq<Label>)
    requires RunOk(ls) && ls != [] && (ls[|ls| - 1].Take? || ls[|ls| - 1].Wake?) && After(ls).consumer.Blocked?
    ensures FateTold(ls, |ls|, After(ls).consumer) && After(ls).queue == [] && !PushedSince(ls, |ls|)
  {
    assert After(ls) == Apply(After(ls[..|ls| - 1]), ls[|ls| - 1]);
    hide RunOk, After;
  }

  // ---------- when EMPTY is returned ----------

  lemma WaitEndIff(ls: seq<Label>, k: nat)
    requires Waits(ls, k) && NotDestroying(ls, k) && !After(ls).consumer.Blocked?
    ensures After(ls).consumer.Expired? && After(ls).queue != []
            <==> PushedSince(ls, k) && PushedUnnoticed(ls, k) && SpuriousTooLate(ls, k)
  {
    FateOfWait(ls, k);
    hide RunOk, After, PushedSince;
    if DeadlineFirst(ls, k) {
      var d :| k <= d < |ls| && ls[d].Deadline? && forall p :: k <= p < d ==> !Wakens(ls[p]);
      forall p | k <= p < |ls| && Wakens(ls[p]) ensures exists e :: k <= e < p && ls[e].Deadline? {
        assert d != p && !(p < d);
      }
    } else {
      var d :| k <= d < |ls| && Wakens(ls[d]) && forall p :: k <= p < d ==> !ls[p].Deadline?;
      assert ls[d].Push? || ls[d].Spurious?;
    }
  }

  /** The host has the lock again: take returns EMPTY after a wait that expired, without looking at the queue; after
      any other it takes the front if there is one. */
  lemma WaitReturns(s: State, l: Label)
    requires Enabled(s, l) && Relocks(l) && (s.consumer.Signalled? || s.consumer.Expired?)
    ensures l.TimeOut? <==> s.consumer.Expired?
    ensures l.TimeOut? ==> Apply(s, l).consumer == Idle && Apply(s, l).queue == s.queue
    ensures !l.TimeOut? && s.queue != [] ==> Apply(s, l).consumer == Holding(s.queue[0])
  {}

  /** Whatever step ends the wait: it returns EMPTY and leaves entries in the queue exactly when something was pushed
      since the wait began, everything pushed was pushed without a signal or after the deadline, and no spurious wakeup
      came before the deadline either. A wait that ends in another way hands over the front of a queue that has one. */
  lemma EmptyAlthoughQueuedIff(ls: seq<Label>, k: nat, end: Label)
    requires Waits(ls, k) && NotDestroying(ls, k) && RunOk(ls + [end]) && Relocks(end)
    ensures var s := After(ls + [end]);
            end.TimeOut? && s.consumer.Idle? && s.queue != []
            <==> PushedSince(ls, k) && PushedUnnoticed(ls, k) && SpuriousTooLate(ls, k)
    ensures var q := After(ls).queue;
            !end.TimeOut? && q != [] ==> After(ls + [end]).consumer == Holding(q[0])
  {
    assert (ls + [end])[..|ls|] == ls;
    FateOfWait(ls, k);
    assert !After(ls).consumer.Blocked? by {
      hide FateTold, RunOk, After, Apply;
    }
    WaitReturns(After(ls), end);
    WaitEndIff(ls, k);
    hide RunOk, After, Apply, Enabled, PushedSince, PushedUnnoticed, SpuriousTooLate;
  }

  /** Every EMPTY comes from such a wait. */
  lemma {:induction false} WaitStarted(ls: seq<Label>) returns (k: nat)
    requires RunOk(ls)
    requires After(ls).consumer.Blocked? || After(ls).consumer.Signalled? || After(ls).consumer.Expired?
    ensures Waits(ls, k)
  {
    hide Enabled, Apply;
    assert ls != [];
    var ls0, l := ls[..|ls| - 1], ls[|ls| - 1];
    if Relocks(l) {
      RelockBlocks(After(ls0), l);
      assert ls[..|ls|] == ls;
      k := |ls|;
    } else {
      StillWaiting(After(ls0), l);
      k := WaitStarted(ls0);
      assert ls0[..k] == ls[..k];
    }
  }

  lemma RelockBlocks(s: State, l: Label)
    requires Enabled(s, l) && Relocks(l)
    ensures !Apply(s, l).consumer.Signalled? && !Apply(s, l).consumer.Expired?
    ensures Apply(s, l).consumer.Blocked? ==> l.Take? || l.Wake?
  {}

  lemma StillWaiting(s: State, l: Label)
    requires Enabled(s, l) && !Relocks(l)
    requires Apply(s, l).consumer.Blocked? || Apply(s, l).consumer.Signalled? || Apply(s, l).consumer.Expired?
    ensures s.consumer.Blocked? || s.consumer.Signalled? || s.consumer.Expired?
  {}

  /** A run in which EMPTY is returned although an entry is queued: NEW_CONNECTION does not signal. */
  lemma EmptyAlthoughQueued() returns (ls: seq<Label>)
    ensures RunOk(ls) && ls != [] && ls[|ls| - 1] == TimeOut
    ensures After(ls).consumer.Idle? && After(ls).queue == [New(0)]
  {
    hide RunOk, After;
    ls := Joining();
    RunExtends(ls, Take);
    ls := ls + [Take];
    RunExtends(ls, Announce(0));
    ls := ls + [Announce(0)];
    assert After(ls).consumer == Blocked && After(ls).queue == [New(0)] && After(ls).phase == Serving;
    RunExtends(ls, Deadline);
    ls := ls + [Deadline];
    RunExtends(ls, TimeOut);
    ls := ls + [TimeOut];
  }
}
