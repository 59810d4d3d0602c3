/** Threads that lock, unlock, wait, start and join one another, and the discipline under which they can never
    deadlock. */
module LockOrder {

  /** update_mutex of the host; the message, outgoing-queue, received-queue and client-table mutexes of the server. */
  datatype Lock = Update | Messages | Outgoing | Received | Clients

  /** Use: the thread looks at or changes what the lock guards. */
  datatype Op =
    | Acquire(l: Lock) | Use(l: Lock) | Release(l: Lock) | Wait(l: Lock) | Start(thread: nat) | Join(thread: nat)

  /** How deeply a thread holds each lock. */
  datatype Held = Held(update: nat, messages: nat, outgoing: nat, received: nat, clients: nat) {
    function Depth(l: Lock): nat {
      match l
      case Update => update
      case Messages => messages
      case Outgoing => outgoing
      case Received => received
      case Clients => clients
    }

    function With(l: Lock, depth: nat): (h: Held)
      ensures h.Depth(l) == depth && forall k :: k != l ==> h.Depth(k) == Depth(k)
    {
      match l
      case Update => this.(update := depth)
      case Messages => this.(messages := depth)
      case Outgoing => this.(outgoing := depth)
      case Received => this.(received := depth)
      case Clients => this.(clients := depth)
    }
  }

  const FREE := Held(0, 0, 0, 0, 0)

  /** std::mutex is not recursive; every server mutex is initialised as recursive. */
  predicate Recursive(l: Lock) {
    !l.Update?
  }

  /** The only order in which two different locks are ever held together. */
  predicate Before(h: Lock, l: Lock) {
    (h.Update? || h.Messages?) && l.Outgoing?
  }

  predicate MayAcquire(h: Held, l: Lock) {
    || (h.Depth(l) > 0 && Recursive(l))
    || (h.Depth(l) == 0 && forall k: Lock :: h.Depth(k) > 0 ==> Before(k, l))
  }

  /** Running `ops` from `h` as thread `i` keeps the discipline and ends holding `after`: locks in order, a use or a
      release only of what is held, a wait only with the lock it waits on held exactly once and nothing else, a join
      only by the first thread and with nothing held; threads are started by earlier ones. */
  predicate Keeps(i: nat, h: Held, ops: seq<Op>, after: Held)
    decreases |ops|
  {
    if ops == [] then h == after
    else
      match ops[0]
      case Acquire(l) => MayAcquire(h, l) && Keeps(i, h.With(l, h.Depth(l) + 1), ops[1..], after)
      case Use(l) => h.Depth(l) > 0 && Keeps(i, h, ops[1..], after)
      case Release(l) => h.Depth(l) > 0 && Keeps(i, h.With(l, h.Depth(l) - 1), ops[1..], after)
      case Wait(l) => h == FREE.With(l, 1) && Keeps(i, h, ops[1..], after)
      case Start(j) => i < j && Keeps(i, h, ops[1..], after)
      case Join(j) => h == FREE && i == 0 < j && Keeps(i, h, ops[1..], after)
  }

  lemma {:induction false} KeepsSequence(i: nat, h: Held, a: seq<Op>, between: Held, b: seq<Op>, after: Held)
    requires Keeps(i, h, a, between) && Keeps(i, between, b, after)
    ensures Keeps(i, h, a + b, after)
    decreases |a|
  {
    if a == [] {
      assert a + b == b;
    } else {
      assert (a + b)[0] == a[0] && (a + b)[1..] == a[1..] + b;
      match a[0]
      case Acquire(l) => KeepsSequence(i, h.With(l, h.Depth(l) + 1), a[1..], between, b, after);
      case Use(l) => KeepsSequence(i, h, a[1..], between, b, after);
      case Release(l) => KeepsSequence(i, h.With(l, h.Depth(l) - 1), a[1..], between, b, after);
      case Wait(l) => KeepsSequence(i, h, a[1..], between, b, after);
      case Start(j) => KeepsSequence(i, h, a[1..], between, b, after);
      case Join(j) => KeepsSequence(i, h, a[1..], between, b, after);
    }
  }

  // ---------- many threads ----------

  datatype Thread = Thread(started: bool, held: Held, todo: seq<Op>)

  predicate Holds(t: Thread, l: Lock) {
    t.held.Depth(l) > 0
  }

  predicate CanStep(ts: seq<Thread>, i: nat) {
    && i < |ts| && ts[i].started && ts[i].todo != []
    && match ts[i].todo[0]
       case Acquire(l) =>
         && (Holds(ts[i], l) ==> Recursive(l))
         && forall j :: 0 <= j < |ts| && j != i ==> !Holds(ts[j], l)
       case Use(_) => true
       case Release(l) => Holds(ts[i], l)
       case Wait(l) => Holds(ts[i], l)
       case Start(j) => true
       case Join(j) => j < |ts| ==> ts[j].todo == []
  }

  /** What a step does to the thread that takes it. A wait gives up one level of its lock; every wait is timed, so
      afterwards the thread only has to acquire the lock again. */
  function Moved(t: Thread): Thread
    requires t.todo != [] && (t.todo[0].Release? || t.todo[0].Wait? ==> Holds(t, t.todo[0].l))
  {
    var h, rest := t.held, t.todo[1..];
    match t.todo[0]
    case Acquire(l) => t.(held := h.With(l, h.Depth(l) + 1), todo := rest)
    case Use(_) => t.(todo := rest)
    case Release(l) => t.(held := h.With(l, h.Depth(l) - 1), todo := rest)
    case Wait(l) => t.(held := h.With(l, h.Depth(l) - 1), todo := [Acquire(l)] + rest)
    case Start(_) => t.(todo := rest)
    case Join(_) => t.(todo := rest)
  }

  function Begun(ts: seq<Thread>, op: Op): (r: seq<Thread>)
    ensures |r| == |ts|
    ensures forall j :: 0 <= j < |ts| ==> r[j] == if op == Start(j) then ts[j].(started := true) else ts[j]
  {
    if op.Start? && op.thread < |ts| then ts[op.thread := ts[op.thread].(started := true)] else ts
  }

  function Step(ts: seq<Thread>, i: nat): (r: seq<Thread>)
    requires CanStep(ts, i)
    ensures |r| == |ts|
  {
    Begun(ts[i := Moved(ts[i])], ts[i].todo[0])
  }

  predicate Orderly(ts: seq<Thread>, i: nat)
    requires i < |ts|
  {
    Keeps(i, ts[i].held, ts[i].todo, FREE)
  }

  predicate Exclusive(ts: seq<Thread>) {
    forall i, j, l :: 0 <= i < j < |ts| && Holds(ts[i], l) ==> !Holds(ts[j], l)
  }

  /** Two different locks are held together only in the one order, and update_mutex never twice. */
  predicate Tidy(h: Held) {
    && (forall k: Lock, l: Lock :: k != l && h.Depth(k) > 0 && h.Depth(l) > 0 ==> Before(k, l) || Before(l, k))
    && h.update <= 1
  }

  /** A thread that has not been started holds nothing, and an earlier thread is going to start it. */
  predicate Awaited(ts: seq<Thread>, j: nat)
    requires j < |ts|
  {
    !ts[j].started ==> ts[j].held == FREE && exists i :: 0 <= i < j && Start(j) in ts[i].todo
  }

  /** After its first join the thread starts nobody. */
  predicate StartsFirst(ops: seq<Op>) {
    forall p, q :: 0 <= p < q < |ops| && ops[p].Join? ==> !ops[q].Start?
  }

  ghost predicate Safe(ts: seq<Thread>) {
    && Exclusive(ts)
    && (forall i :: 0 <= i < |ts| ==> Orderly(ts, i) && Tidy(ts[i].held))
    && (forall i :: 0 <= i < |ts| ==> Awaited(ts, i))
    && (ts != [] ==> StartsFirst(ts[0].todo))
  }

  predicate Finished(ts: seq<Thread>) {
    forall i :: 0 <= i < |ts| ==> ts[i].todo == []
  }

  lemma MovedKeeps(i: nat, t: Thread)
    requires Keeps(i, t.held, t.todo, FREE) && t.todo != []
    requires t.todo[0].Release? || t.todo[0].Wait? ==> Holds(t, t.todo[0].l)
    ensures Keeps(i, Moved(t).held, Moved(t).todo, FREE)
  {
    if t.todo[0].Wait? {
      var l, rest := t.todo[0].l, t.todo[1..];
      assert t.held == FREE.With(l, 1);
      assert Moved(t).held == FREE;
      assert ([Acquire(l)] + rest)[1..] == rest;
      assert FREE.With(l, 1) == t.held;
    }
  }

  lemma MovedIsTidy(i: nat, t: Thread)
    requires Keeps(i, t.held, t.todo, FREE) && t.todo != [] && Tidy(t.held)
    requires t.todo[0].Release? || t.todo[0].Wait? ==> Holds(t, t.todo[0].l)
    ensures Tidy(Moved(t).held)
  {}

  lemma MovedHolds(t: Thread)
    requires t.todo != [] && (t.todo[0].Release? || t.todo[0].Wait? ==> Holds(t, t.todo[0].l))
    ensures forall l :: Holds(Moved(t), l) ==> Holds(t, l) || t.todo[0] == Acquire(l)
  {}

  /** A start that is still to come stays to come, unless it is the step taken. */
  lemma MovedStarts(t: Thread)
    requires t.todo != [] && (t.todo[0].Release? || t.todo[0].Wait? ==> Holds(t, t.todo[0].l))
    ensures forall j :: Start(j) in t.todo && t.todo[0] != Start(j) ==> Start(j) in Moved(t).todo
    ensures StartsFirst(t.todo) ==> StartsFirst(Moved(t).todo)
  {
    assert t.todo == [t.todo[0]] + t.todo[1..];
  }

  lemma StepIsExclusive(ts: seq<Thread>, i: nat)
    requires Exclusive(ts) && CanStep(ts, i)
    ensures Exclusive(Step(ts, i))
  {
    MovedHolds(ts[i]);
    var us := ts[i := Moved(ts[i])];
    hide Moved, Begun;
    assert Exclusive(us) by { hide Holds; }
    assert forall j :: 0 <= j < |ts| ==> Step(ts, i)[j].held == us[j].held;
  }

  lemma StepIsAwaited(ts: seq<Thread>, i: nat)
    requires CanStep(ts, i) && forall j :: 0 <= j < |ts| ==> Awaited(ts, j)
    ensures forall j :: 0 <= j < |ts| ==> Awaited(Step(ts, i), j)
  {
    MovedStarts(ts[i]);
    var us := Step(ts, i);
    assert forall j :: 0 <= j < |ts| && j != i ==> us[j].todo == ts[j].todo;
    assert us[i].todo == Moved(ts[i]).todo;
    hide Moved, StartsFirst;
    forall j | 0 <= j < |ts| ensures Awaited(us, j) {
      assert Awaited(ts, j);
      if !us[j].started {
        var k :| 0 <= k < j && Start(j) in ts[k].todo;
        assert Start(j) in us[k].todo;
      }
    }
  }

  lemma StepIsSafe(ts: seq<Thread>, i: nat)
    requires Safe(ts) && CanStep(ts, i)
    ensures Safe(Step(ts, i))
  {
    assert Orderly(ts, i);
    StepIsExclusive(ts, i);
    StepIsAwaited(ts, i);
    MovedKeeps(i, ts[i]);
    MovedIsTidy(i, ts[i]);
    MovedStarts(ts[i]);
    hide Keeps, Tidy, Exclusive, Moved, Awaited, StartsFirst;
    forall j | 0 <= j < |ts| ensures Orderly(Step(ts, i), j) && Tidy(Step(ts, i)[j].held) {
      assert Orderly(ts, j);
    }
  }

  // ---------- nobody is stuck ----------

  /** With two locks held in order at most, a chain of blocked threads ends. */
  function Rank(l: Lock): nat {
    match l
    case Update => 0
    case Messages => 1
    case Outgoing => 2
    case Received => 3
    case Clients => 4
  }

  lemma HolderIsBusy(i: nat, t: Thread, l: Lock)
    requires Keeps(i, t.held, t.todo, FREE) && Holds(t, l)
    ensures t.todo != [] && !t.todo[0].Join?
    ensures t.todo[0].Acquire? ==> MayAcquire(t.held, t.todo[0].l)
    ensures t.todo[0].Acquire? && !Holds(t, t.todo[0].l) ==> Rank(l) < Rank(t.todo[0].l)
    ensures t.todo[0].Release? || t.todo[0].Wait? ==> Holds(t, t.todo[0].l)
  {}

  lemma HolderHasStarted(ts: seq<Thread>, i: nat, l: Lock)
    requires Safe(ts) && i < |ts| && Holds(ts[i], l)
    ensures ts[i].started
  {
    assert Awaited(ts, i);
    hide Exclusive, Orderly, Tidy;
  }

  /** A thread with a lock to give back, or everybody who blocks it in turn, leads to one that can move. */
  lemma {:induction false} HolderLeadsOn(ts: seq<Thread>, i: nat, l: Lock) returns (k: nat)
    requires Safe(ts) && i < |ts| && Holds(ts[i], l)
    ensures CanStep(ts, k)
    decreases 5 - Rank(l)
  {
    assert Orderly(ts, i);
    HolderIsBusy(i, ts[i], l);
    HolderHasStarted(ts, i, l);
    hide Keeps, Awaited, StartsFirst;
    var op := ts[i].todo[0];
    if op.Acquire? && exists j :: 0 <= j < |ts| && j != i && Holds(ts[j], op.l) {
      var j :| 0 <= j < |ts| && j != i && Holds(ts[j], op.l);
      k := HolderLeadsOn(ts, j, op.l);
    } else {
      k := i;
    }
  }

  /** A started thread that is not waiting to join goes on, or somebody does who blocks it. */
  lemma WorkerLeadsOn(ts: seq<Thread>, i: nat) returns (k: nat)
    requires Safe(ts) && i < |ts| && ts[i].started && ts[i].todo != [] && !ts[i].todo[0].Join?
    ensures CanStep(ts, k)
  {
    var op := ts[i].todo[0];
    assert Orderly(ts, i);
    if op.Acquire? && exists j :: 0 <= j < |ts| && j != i && Holds(ts[j], op.l) {
      var j :| 0 <= j < |ts| && j != i && Holds(ts[j], op.l);
      k := HolderLeadsOn(ts, j, op.l);
    } else {
      k := i;
    }
  }

  lemma OnlyTheFirstJoins(ts: seq<Thread>, i: nat)
    requires Safe(ts) && 0 < i < |ts| && ts[i].todo != []
    ensures !ts[i].todo[0].Join?
  {
    assert Orderly(ts, i);
  }

  /** An unfinished thread has been started, or an unfinished earlier thread that has been is to start it in turn. If
      the first thread is joining, that is not the first thread. */
  lemma {:induction false} SomeStarter(ts: seq<Thread>, j: nat) returns (k: nat)
    requires Safe(ts) && j < |ts| && ts[j].todo != []
    ensures k <= j && ts[k].started && ts[k].todo != []
    ensures 0 < j && ts[0].todo != [] && ts[0].todo[0].Join? ==> 0 < k
  {
    if ts[j].started {
      k := j;
    } else {
      assert Awaited(ts, j);
      var i :| 0 <= i < j && Start(j) in ts[i].todo;
      if i == 0 && ts[0].todo[0].Join? {
        JoinerStartsNobody(ts[0].todo, j);
      }
      k := SomeStarter(ts, i);
    }
  }

  lemma JoinerStartsNobody(ops: seq<Op>, j: nat)
    requires StartsFirst(ops) && ops != [] && ops[0].Join?
    ensures Start(j) !in ops
  {
    forall q | 0 <= q < |ops| ensures ops[q] != Start(j) {
      assert 0 < q ==> ops[0].Join?;
    }
  }

  lemma SomeoneCanStep(ts: seq<Thread>, i: nat) returns (k: nat)
    requires Safe(ts) && i < |ts| && ts[i].todo != []
    ensures CanStep(ts, k)
  {
    var j := SomeStarter(ts, i);
    if 0 < j {
      OnlyTheFirstJoins(ts, j);
      k := WorkerLeadsOn(ts, j);
    } else {
      var op := ts[0].todo[0];
      if !op.Join? {
        k := WorkerLeadsOn(ts, 0);
      } else if op.thread < |ts| && ts[op.thread].todo != [] {
        assert 0 < op.thread by { assert Orderly(ts, 0); }
        j := SomeStarter(ts, op.thread);
        OnlyTheFirstJoins(ts, j);
        k := WorkerLeadsOn(ts, j);
      } else {
        k := 0;
      }
    }
  }

  // ---------- whole runs ----------

  /** At the beginning the first thread alone has been started, and every other will be by an earlier one. */
  ghost predicate Ready(ts: seq<Thread>) {
    && (forall i :: 0 <= i < |ts| ==>
          ts[i].held == FREE && Keeps(i, FREE, ts[i].todo, FREE) && (ts[i].started <==> i == 0))
    && (forall j :: 0 < j < |ts| ==> exists i :: 0 <= i < j && Start(j) in ts[i].todo)
    && (ts != [] ==> StartsFirst(ts[0].todo))
  }

  predicate RunOk(ts: seq<Thread>, schedule: seq<nat>)
    decreases |schedule|
  {
    schedule == [] || (CanStep(ts, schedule[0]) && RunOk(Step(ts, schedule[0]), schedule[1..]))
  }

  function After(ts: seq<Thread>, schedule: seq<nat>): (r: seq<Thread>)
    requires RunOk(ts, schedule)
    ensures |r| == |ts|
    decreases |schedule|
  {
    if schedule == [] then ts else After(Step(ts, schedule[0]), schedule[1..])
  }

  lemma {:induction false} RunIsSafe(ts: seq<Thread>, schedule: seq<nat>)
    requires Safe(ts) && RunOk(ts, schedule)
    ensures Safe(After(ts, schedule))
    decreases |schedule|
  {
    if schedule != [] {
      StepIsSafe(ts, schedule[0]);
      RunIsSafe(Step(ts, schedule[0]), schedule[1..]);
    }
  }

  lemma FreeIsTidy()
    ensures Tidy(FREE) && forall l: Lock :: FREE.Depth(l) == 0
  {}

  lemma ReadyIsSafe(ts: seq<Thread>)
    requires Ready(ts)
    ensures Safe(ts)
  {
    FreeIsTidy();
    hide Keeps, StartsFirst, Tidy;
    forall j | 0 <= j < |ts| ensures Awaited(ts, j) && Orderly(ts, j) && Tidy(ts[j].held) {
      assert 0 < j ==> exists i :: 0 <= i < j && Start(j) in ts[i].todo;
    }
  }

  /** Disciplined threads never deadlock: under every schedule no lock is ever held by two threads, every thread
      keeps the discipline, and unless all threads have finished one that has been started can go on. */
  lemma NoDeadlock(ts: seq<Thread>, schedule: seq<nat>)
    requires Ready(ts) && RunOk(ts, schedule)
    ensures Safe(After(ts, schedule))
    ensures Finished(After(ts, schedule)) || exists k :: CanStep(After(ts, schedule), k)
  {
    ReadyIsSafe(ts);
    RunIsSafe(ts, schedule);
    var now := After(ts, schedule);
    if !Finished(now) {
      var i :| 0 <= i < |now| && now[i].todo != [];
      var k := SomeoneCanStep(now, i);
    }
  }

  // ---------- and it ends ----------

  /** A bound on the steps a thread still takes: a wait costs two. */
  function Work(ops: seq<Op>): nat {
    if ops == [] then 0 else (if ops[0].Wait? then 2 else 1) + Work(ops[1..])
  }

  function TotalWork(ts: seq<Thread>): nat {
    if ts == [] then 0 else Work(ts[0].todo) + TotalWork(ts[1..])
  }

  lemma {:induction false} TotalWorkUpdate(ts: seq<Thread>, i: nat, t: Thread)
    requires i < |ts|
    ensures TotalWork(ts[i := t]) == TotalWork(ts) - Work(ts[i].todo) + Work(t.todo)
  {
    if i == 0 {
      assert ts[i := t][1..] == ts[1..];
    } else {
      assert ts[i := t][1..] == ts[1..][i - 1 := t];
      TotalWorkUpdate(ts[1..], i - 1, t);
    }
  }

  lemma MovedWorks(t: Thread)
    requires t.todo != [] && (t.todo[0].Release? || t.todo[0].Wait? ==> Holds(t, t.todo[0].l))
    ensures Work(Moved(t).todo) == Work(t.todo) - 1
  {
    if t.todo[0].Wait? {
      assert ([Acquire(t.todo[0].l)] + t.todo[1..])[1..] == t.todo[1..];
    }
  }

  lemma {:induction false} BegunWorks(ts: seq<Thread>, op: Op)
    ensures TotalWork(Begun(ts, op)) == TotalWork(ts)
  {
    if op.Start? && op.thread < |ts| {
      TotalWorkUpdate(ts, op.thread, ts[op.thread].(started := true));
    }
  }

  /** Every schedule uses up the work it does, so every maximal schedule finishes all threads. */
  lemma {:induction false} SchedulesUseUpWork(ts: seq<Thread>, schedule: seq<nat>)
    requires RunOk(ts, schedule)
    ensures TotalWork(After(ts, schedule)) + |schedule| == TotalWork(ts)
    decreases |schedule|
  {
    if schedule != [] {
      var i := schedule[0];
      MovedWorks(ts[i]);
      TotalWorkUpdate(ts, i, Moved(ts[i]));
      BegunWorks(ts[i := Moved(ts[i])], ts[i].todo[0]);
      SchedulesUseUpWork(Step(ts, i), schedule[1..]);
    }
  }

  /** A schedule that cannot be continued is one in which every thread has finished, and none goes on for ever. */
  lemma StuckIffFinished(ts: seq<Thread>, schedule: seq<nat>)
    requires Ready(ts) && RunOk(ts, schedule)
    ensures (forall k :: !CanStep(After(ts, schedule), k)) <==> Finished(After(ts, schedule))
    ensures |schedule| <= TotalWork(ts)
  {
    NoDeadlock(ts, schedule);
    SchedulesUseUpWork(ts, schedule);
  }

  // ---------- nobody interferes ----------

  /** The thread's next operation looks at or changes what the lock guards. */
  predicate AboutToUse(t: Thread, l: Lock) {
    t.todo != [] && t.todo[0] == Use(l)
  }

  lemma UserHolds(i: nat, t: Thread, l: Lock)
    requires Keeps(i, t.held, t.todo, FREE) && AboutToUse(t, l)
    ensures Holds(t, l)
  {}

  /** Disciplined threads never touch the same thing at once: under every schedule, a thread about to use what a lock
      guards holds the lock, and nobody else does. */
  lemma NoInterference(ts: seq<Thread>, schedule: seq<nat>, i: nat, l: Lock)
    requires Ready(ts) && RunOk(ts, schedule) && i < |ts| && AboutToUse(After(ts, schedule)[i], l)
    ensures var now := After(ts, schedule);
            Holds(now[i], l) && forall j :: 0 <= j < |ts| && j != i ==> !Holds(now[j], l) && !AboutToUse(now[j], l)
  {
    ReadyIsSafe(ts);
    RunIsSafe(ts, schedule);
    var now := After(ts, schedule);
    assert Orderly(now, i);
    UserHolds(i, now[i], l);
    hide RunOk, After, Keeps, Held.Depth, Ready, Tidy, Awaited, StartsFirst;
    forall j | 0 <= j < |ts| && j != i ensures !Holds(now[j], l) && !AboutToUse(now[j], l) {
      assert !Holds(now[j], l);
      assert Orderly(now, j);
      if AboutToUse(now[j], l) {
        UserHolds(j, now[j], l);
      }
    }
  }
}
