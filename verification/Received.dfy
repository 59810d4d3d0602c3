/** The receiving side of the server as a system of steps: one receiver thread per client, the received queue,
    the host that takes from it, and the shutdown (Server/server_receive.c and Server/server.c). */
module Received {
  import opened Common

  datatype Entry = New(client: nat) | Message(client: nat, n: nat) | Lost(client: nat)

  /** The n-th buffer that the receiver of a client allocated. */
  datatype Buffer = Buffer(client: nat, n: nat)

  /** Where a receiver thread is. `Failed`: the thread could not be created. */
  datatype Receiver =
    | Failed
    | Created                    // about to announce NEW_CONNECTION
    | Testing                    // about to read its status
    | Polling
    | Reading(n: nat)            // header read, buffer n allocated
    | Pushing(n: nat)            // buffer n complete
    | Leaving                    // about to announce LOST_CONNECTION
    | Closing                    // about to mark itself stopped
    | Finished

  datatype Client = Client(status: Status, receiver: Receiver, buffers: nat, passed: nat)

  /** The host between, in, and after a call of take. Blocked: in the timed wait. Signalled, Expired: woken, or past
      the deadline, and about to lock the queue again. */
  datatype Consumer = Idle | Blocked | Signalled | Expired | Holding(entry: Entry)

  datatype Phase = Serving | NoListener | NoSender | Stopping | Joined | Destroyed

  datatype State = State(
    clients: seq<Client>,
    queue: seq<Entry>,
    consumer: Consumer,
    pushed: seq<Entry>,          // everything pushed at the back so far
    lost: seq<Entry>,            // everything pushed at the front so far
    out: seq<Entry>,             // everything popped so far
    freed: multiset<Buffer>,
    phase: Phase)

  const INITIAL := State([], [], Idle, [], [], [], multiset{}, Serving)

  datatype PollResult = Quiet | Broken | BadHeader | Header

  datatype Label =
    // listener and sender threads
    | AddClient(created: bool) | Signal(c: nat)
    // the receiver thread of client c
    | Announce(c: nat) | Test(c: nat) | Poll(c: nat, result: PollResult) | Read(c: nat, whole: bool) | Push(c: nat)
    | AnnounceLost(c: nat) | Close(c: nat)
    // the host
    | Take | Spurious | Deadline | Wake | TimeOut | Release
    // stopServer
    | JoinListener | JoinSender | StopAll | JoinReceivers | DestroyOne | DestroyEnd

  predicate At(s: State, c: nat, r: Receiver) {
    c < |s.clients| && s.clients[c].receiver == r
  }

  predicate Done(r: Receiver) {
    r.Failed? || r.Finished?
  }

  predicate Enabled(s: State, l: Label) {
    match l
    case AddClient(_) => s.phase.Serving?
    case Signal(c) => c < |s.clients| && (s.phase.Serving? || s.phase.NoListener?)
    case Announce(c) => At(s, c, Created)
    case Test(c) => At(s, c, Testing)
    case Poll(c, _) => At(s, c, Polling)
    case Read(c, _) => c < |s.clients| && s.clients[c].receiver.Reading?
    case Push(c) => c < |s.clients| && s.clients[c].receiver.Pushing?
    case AnnounceLost(c) => At(s, c, Leaving)
    case Close(c) => At(s, c, Closing)
    case Take => s.consumer.Idle? && !s.phase.Destroyed?
    case Spurious => s.consumer.Blocked?
    case Deadline => s.consumer.Blocked?
    case Wake => s.consumer.Signalled? && !s.phase.Destroyed?
    case TimeOut => s.consumer.Expired? && !s.phase.Destroyed?
    case Release => s.consumer.Holding?
    case JoinListener => s.phase.Serving?
    case JoinSender => s.phase.NoListener?
    case StopAll => s.phase.NoSender?
    case JoinReceivers => s.phase.Stopping? && forall c :: 0 <= c < |s.clients| ==> Done(s.clients[c].receiver)
    case DestroyOne => s.phase.Joined? && s.queue != []
    case DestroyEnd => s.phase.Joined? && s.queue == []
  }

  /** The buffer an entry carries; the connection entries carry a null pointer. */
  function BufferOf(e: Entry): Option<Buffer> {
    if e.Message? then Some(Buffer(e.client, e.n)) else None
  }

  function With(s: State, c: nat, client: Client): (r: State)
    requires c < |s.clients|
    ensures r == s.(clients := r.clients) && |r.clients| == |s.clients|
  {
    s.(clients := s.clients[c := client])
  }

  function Move(s: State, c: nat, r: Receiver): (t: State)
    requires c < |s.clients|
    ensures t == s.(clients := t.clients) && |t.clients| == |s.clients|
  {
    With(s, c, s.clients[c].(receiver := r))
  }

  function Polled(s: State, c: nat, result: PollResult): State
    requires c < |s.clients|
  {
    match result
    case Quiet => Move(s, c, Testing)
    case Broken => Move(s, c, Leaving)
    case BadHeader => Move(s, c, Leaving)
    case Header =>
      var client := s.clients[c];
      With(s, c, client.(receiver := Reading(client.buffers), buffers := client.buffers + 1))
  }

  function PushedBack(s: State, e: Entry): State {
    s.(queue := s.queue + [e], pushed := s.pushed + [e])
  }

  function PushedFront(s: State, e: Entry): State {
    s.(queue := [e] + s.queue, lost := s.lost + [e])
  }

  function Popped(s: State): State
    requires s.queue != []
  {
    s.(queue := s.queue[1..], out := s.out + [s.queue[0]])
  }

  /** pthread_cond_signal: wakes the host if it is in the wait; otherwise it is lost. */
  function Notified(c: Consumer): Consumer {
    if c.Blocked? then Signalled else c
  }

  /** take finds an entry and returns it, or goes to wait. */
  function Tried(s: State): State {
    if s.queue == [] then s.(consumer := Blocked) else Popped(s).(consumer := Holding(s.queue[0]))
  }

  function AllStopped(cs: seq<Client>): (r: seq<Client>)
    ensures |r| == |cs|
    ensures forall i :: 0 <= i < |cs| ==> r[i] == cs[i].(status := Stop)
  {
    if cs == [] then [] else AllStopped(cs[..|cs| - 1]) + [cs[|cs| - 1].(status := Stop)]
  }

  function Apply(s: State, l: Label): State
    requires Enabled(s, l)
  {
    match l
    case AddClient(created) => s.(clients := s.clients + [Client(Running, if created then Created else Failed, 0, 0)])
    case Signal(c) => With(s, c, s.clients[c].(status := Stop))
    case Announce(c) => Move(PushedBack(s, New(c)), c, Testing)
    case Test(c) => Move(s, c, if s.clients[c].status.Running? then Polling else Leaving)
    case Poll(c, result) => Polled(s, c, result)
    case Read(c, whole) =>
      var n := s.clients[c].receiver.n;
      if whole then Move(s, c, Pushing(n))
      else Move(s.(freed := Free(s.freed, Some(Buffer(c, n)))), c, Leaving)
    case Push(c) =>
      var client := s.clients[c];
      With(PushedBack(s, Message(c, client.receiver.n)).(consumer := Notified(s.consumer)), c,
           client.(receiver := Testing, passed := client.passed + 1))
    case AnnounceLost(c) => Move(PushedFront(s, Lost(c)), c, Closing)
    case Close(c) => With(s, c, s.clients[c].(status := Stopped, receiver := Finished))
    case Take => Tried(s)
    case Spurious => s.(consumer := Signalled)
    case Deadline => s.(consumer := Expired)
    case Wake => Tried(s)
    case TimeOut => s.(consumer := Idle)
    case Release => s.(consumer := Idle, freed := Free(s.freed, BufferOf(s.consumer.entry)))
    case JoinListener => s.(phase := NoListener)
    case JoinSender => s.(phase := NoSender)
    case StopAll => s.(phase := Stopping, clients := AllStopped(s.clients))
    case JoinReceivers => s.(phase := Joined)
    case DestroyOne => Popped(s).(freed := Free(s.freed, BufferOf(s.queue[0])))
    case DestroyEnd => s.(phase := Destroyed)
  }

  predicate RunOk(ls: seq<Label>)
    decreases |ls|, 0
  {
    ls == [] || (RunOk(ls[..|ls| - 1]) && Enabled(After(ls[..|ls| - 1]), ls[|ls| - 1]))
  }

  function After(ls: seq<Label>): State
    requires RunOk(ls)
    decreases |ls|, 1
  {
    if ls == [] then INITIAL else Apply(After(ls[..|ls| - 1]), ls[|ls| - 1])
  }

  lemma RunExtends(ls: seq<Label>, l: Label)
    requires RunOk(ls) && Enabled(After(ls), l)
    ensures RunOk(ls + [l]) && After(ls + [l]) == Apply(After(ls), l)
  {
    hide Apply, Enabled;
    assert (ls + [l])[..|ls|] == ls;
  }

  // ---------- what a step does to the queue and its history ----------

  /** The four ways a step can touch the queue. */
  datatype Touch = Nothing | Back(e: Entry) | Front(e: Entry) | Pop

  function TouchOf(s: State, l: Label): Touch
    requires Enabled(s, l)
  {
    match l
    case Announce(c) => Back(New(c))
    case Push(c) => Back(Message(c, s.clients[c].receiver.n))
    case AnnounceLost(c) => Front(Lost(c))
    case Take => if s.queue == [] then Nothing else Pop
    case Wake => if s.queue == [] then Nothing else Pop
    case DestroyOne => Pop
    case _ => Nothing
  }

  predicate Touched(s: State, t: State, touch: Touch) {
    match touch
    case Nothing => t.queue == s.queue && t.pushed == s.pushed && t.lost == s.lost && t.out == s.out
    case Back(e) => t.queue == s.queue + [e] && t.pushed == s.pushed + [e] && t.lost == s.lost && t.out == s.out
    case Front(e) => t.queue == [e] + s.queue && t.pushed == s.pushed && t.lost == s.lost + [e] && t.out == s.out
    case Pop => s.queue != [] && t.queue == s.queue[1..] && t.out == s.out + [s.queue[0]]
                && t.pushed == s.pushed && t.lost == s.lost
  }

  lemma StepTouches(s: State, l: Label)
    requires Enabled(s, l)
    ensures Touched(s, Apply(s, l), TouchOf(s, l))
    ensures TouchOf(s, l).Back? ==> !TouchOf(s, l).e.Lost?
    ensures TouchOf(s, l).Front? ==> TouchOf(s, l).e.Lost?
  {
    hide With, Move;
  }

  // ---------- two lanes ----------

  function LostOf(q: seq<Entry>): seq<Entry> {
    if q == [] then [] else if q[0].Lost? then [q[0]] + LostOf(q[1..]) else LostOf(q[1..])
  }

  function OthersOf(q: seq<Entry>): seq<Entry> {
    if q == [] then [] else if q[0].Lost? then OthersOf(q[1..]) else [q[0]] + OthersOf(q[1..])
  }

  lemma {:induction false} LanesOfSum(a: seq<Entry>, b: seq<Entry>)
    ensures LostOf(a + b) == LostOf(a) + LostOf(b)
    ensures OthersOf(a + b) == OthersOf(a) + OthersOf(b)
  {
    if a == [] {
      assert a + b == b;
    } else {
      var e, q := a[0], a[1..];
      assert a == [e] + q && a + b == [e] + (q + b);
      LanesOfSum(q, b);
      LanesOfHead(e, q);
      LanesOfHead(e, q + b);
      hide LostOf, OthersOf;
      assert LostOf([e]) + (LostOf(q) + LostOf(b)) == LostOf([e]) + LostOf(q) + LostOf(b);
      assert OthersOf([e]) + (OthersOf(q) + OthersOf(b)) == OthersOf([e]) + OthersOf(q) + OthersOf(b);
    }
  }

  lemma LostOfHead(e: Entry, q: seq<Entry>)
    ensures LostOf([e] + q) == (if e.Lost? then [e] else []) + LostOf(q)
  {
    var r := [e] + q;
    assert r[0] == e && r[1..] == q;
  }

  lemma OthersOfHead(e: Entry, q: seq<Entry>)
    ensures OthersOf([e] + q) == (if e.Lost? then [] else [e]) + OthersOf(q)
  {
    var r := [e] + q;
    assert r[0] == e && r[1..] == q;
  }

  lemma LanesOfHead(e: Entry, q: seq<Entry>)
    ensures LostOf([e] + q) == LostOf([e]) + LostOf(q)
    ensures OthersOf([e] + q) == OthersOf([e]) + OthersOf(q)
    ensures e.Lost? ==> LostOf([e]) == [e] && OthersOf([e]) == []
    ensures !e.Lost? ==> LostOf([e]) == [] && OthersOf([e]) == [e]
  {
    assert LostOf([]) == [] && OthersOf([]) == [] && [e] + [] == [e];
    hide LostOf, OthersOf;
    LostOfHead(e, q);
    OthersOfHead(e, q);
    LostOfHead(e, []);
    OthersOfHead(e, []);
  }

  lemma {:induction false} LanesHoldTheirKind(q: seq<Entry>)
    ensures forall i :: 0 <= i < |LostOf(q)| ==> LostOf(q)[i].Lost?
    ensures forall i :: 0 <= i < |OthersOf(q)| ==> !OthersOf(q)[i].Lost?
  {
    if q != [] {
      LanesHoldTheirKind(q[1..]);
    }
  }

  /** `a` lists some of the elements of `b`, latest first. */
  predicate LatestFirst(a: seq<Entry>, b: seq<Entry>) {
    || a == []
    || (b != [] && ((a[0] == b[|b| - 1] && LatestFirst(a[1..], b[..|b| - 1])) || LatestFirst(a, b[..|b| - 1])))
  }

  lemma {:induction false} LatestFirstDrops(a: seq<Entry>, b: seq<Entry>)
    requires a != [] && LatestFirst(a, b)
    ensures LatestFirst(a[1..], b)
    decreases |b|
  {
    if a[0] == b[|b| - 1] && LatestFirst(a[1..], b[..|b| - 1]) {
    } else {
      LatestFirstDrops(a, b[..|b| - 1]);
    }
  }

  lemma LatestFirstGrows(a: seq<Entry>, b: seq<Entry>, e: Entry)
    requires LatestFirst(a, b)
    ensures LatestFirst([e] + a, b + [e])
  {
    assert (b + [e])[..|b|] == b && ([e] + a)[1..] == a;
  }

  predicate LostFirst(q: seq<Entry>) {
    q == LostOf(q) + OthersOf(q)
  }

  /** The queue is LOST_CONNECTION entries, latest first, then everything else in arrival order; and what has been
      taken of the rest, followed by what is queued of it, is the whole history of pushes at the back. */
  predicate TwoLanes(s: State) {
    && LostFirst(s.queue)
    && LatestFirst(LostOf(s.queue), s.lost)
    && OthersOf(s.out) + OthersOf(s.queue) == s.pushed
  }

  lemma LostFirstFront(q: seq<Entry>, e: Entry)
    requires LostFirst(q) && e.Lost?
    ensures LostFirst([e] + q)
  {
    LanesOfHead(e, q);
    hide LostOf, OthersOf;
    assert [e] + q == [e] + (LostOf(q) + OthersOf(q)) == ([e] + LostOf(q)) + OthersOf(q);
  }

  lemma LostFirstBack(q: seq<Entry>, e: Entry)
    requires LostFirst(q) && !e.Lost?
    ensures LostFirst(q + [e])
  {
    LanesOfSum(q, [e]);
    LanesOfHead(e, []);
    hide LostOf, OthersOf;
    assert q + [e] == LostOf(q) + (OthersOf(q) + [e]);
  }

  lemma LostFirstPop(e: Entry, q: seq<Entry>)
    requires LostFirst([e] + q)
    ensures LostFirst(q)
    ensures !e.Lost? ==> LostOf(q) == []
  {
    LanesOfHead(e, q);
    LanesHoldTheirKind([e] + q);
    hide LostOf, OthersOf;
    if e.Lost? {
      assert q == ([e] + q)[1..] == ([e] + LostOf(q) + OthersOf(q))[1..] == LostOf(q) + OthersOf(q);
    } else {
      assert LostOf([e] + q) == LostOf(q);
      assert forall i :: 0 <= i < |LostOf(q)| ==> ([e] + q)[i].Lost?;
      assert ([e] + q)[0] == e;
      assert LostOf(q) == [];
      assert q == ([e] + q)[1..] == ([e] + OthersOf(q))[1..] == OthersOf(q);
    }
  }

  lemma LanesBack(s: State, t: State, e: Entry)
    requires TwoLanes(s) && Touched(s, t, Back(e)) && !e.Lost?
    ensures TwoLanes(t)
  {
    LostFirstBack(s.queue, e);
    LanesOfSum(s.queue, [e]);
    LanesOfHead(e, []);
    hide LostOf, OthersOf, LatestFirst, LostFirst;
    assert LostOf(t.queue) == LostOf(s.queue);
    assert OthersOf(t.out) + OthersOf(t.queue) == OthersOf(s.out) + OthersOf(s.queue) + [e];
  }

  lemma LanesFront(s: State, t: State, e: Entry)
    requires TwoLanes(s) && Touched(s, t, Front(e)) && e.Lost?
    ensures TwoLanes(t)
  {
    LostFirstFront(s.queue, e);
    LanesOfHead(e, s.queue);
    LatestFirstGrows(LostOf(s.queue), s.lost, e);
    hide LostOf, OthersOf, LatestFirst, LostFirst;
    assert OthersOf(t.queue) == OthersOf(s.queue);
  }

  lemma LanesPopLost(s: State, t: State)
    requires TwoLanes(s) && Touched(s, t, Pop) && s.queue[0].Lost?
    ensures TwoLanes(t)
  {
    var e := s.queue[0];
    assert s.queue == [e] + t.queue;
    LanesOfHead(e, t.queue);
    LanesOfSum(s.out, [e]);
    LostFirstPop(e, t.queue);
    LatestFirstDrops(LostOf(s.queue), s.lost);
    hide LostOf, OthersOf, LatestFirst, LostFirst;
    assert LostOf(s.queue)[1..] == LostOf(t.queue);
    assert OthersOf(t.queue) == OthersOf(s.queue) && OthersOf(t.out) == OthersOf(s.out);
  }

  lemma LanesPopOther(s: State, t: State)
    requires TwoLanes(s) && Touched(s, t, Pop) && !s.queue[0].Lost?
    ensures TwoLanes(t)
  {
    var e := s.queue[0];
    assert s.queue == [e] + t.queue;
    LanesOfHead(e, t.queue);
    LanesOfSum(s.out, [e]);
    LostFirstPop(e, t.queue);
    assert LatestFirst([], t.lost);
    hide LostOf, OthersOf, LostFirst, LatestFirst;
    assert LostOf(t.queue) == [] && LostOf(s.queue) == [] && LostOf(t.out) == LostOf(s.out);
    assert OthersOf(t.out) + OthersOf(t.queue) == OthersOf(s.out) + ([e] + OthersOf(t.queue));
  }

  lemma LanesStep(s: State, l: Label)
    requires TwoLanes(s) && Enabled(s, l)
    ensures TwoLanes(Apply(s, l))
  {
    StepTouches(s, l);
    hide Enabled, Apply, TouchOf, TwoLanes;
    match TouchOf(s, l)
    case Nothing => LanesNothing(s, Apply(s, l));
    case Back(e) => LanesBack(s, Apply(s, l), e);
    case Front(e) => LanesFront(s, Apply(s, l), e);
    case Pop =>
      if s.queue[0].Lost? {
        LanesPopLost(s, Apply(s, l));
      } else {
        LanesPopOther(s, Apply(s, l));
      }
  }

  lemma LanesNothing(s: State, t: State)
    requires TwoLanes(s) && Touched(s, t, Nothing)
    ensures TwoLanes(t)
  {}

  lemma {:induction false} TwoLanesHold(ls: seq<Label>)
    requires RunOk(ls)
    ensures TwoLanes(After(ls))
  {
    hide Enabled, Apply, TwoLanes;
    if ls == [] {
      assert TwoLanes(INITIAL) by { EmptyLanes(); }
    } else {
      TwoLanesHold(ls[..|ls| - 1]);
      LanesStep(After(ls[..|ls| - 1]), ls[|ls| - 1]);
    }
  }

  lemma EmptyLanes()
    ensures TwoLanes(INITIAL)
  {}

  /** A queued LOST_CONNECTION precedes everything else that is queued, its own client's entries in particular. */
  lemma LostGoesFirst(ls: seq<Label>, i: nat, j: nat)
    requires RunOk(ls) && i < |After(ls).queue| && j < |After(ls).queue|
    requires After(ls).queue[i].Lost? && !After(ls).queue[j].Lost?
    ensures i < j
  {
    TwoLanesHold(ls);
    LanesHoldTheirKind(After(ls).queue);
    hide LostOf, OthersOf, RunOk, After;
  }

  // ---------- what each client contributes ----------

  predicate Announced(r: Receiver) {
    !r.Failed? && !r.Created?
  }

  predicate SignedOff(r: Receiver) {
    r.Closing? || r.Finished?
  }

  /** The buffer counters of a receiver: every message passed on used the next buffer. */
  predicate Numbered(client: Client) {
    match client.receiver
    case Reading(n) => n == client.passed && client.buffers == n + 1
    case Pushing(n) => n == client.passed && client.buffers == n + 1
    case Testing => client.buffers == client.passed
    case Polling => client.buffers == client.passed
    case Failed => client.buffers == client.passed == 0
    case Created => client.buffers == client.passed == 0
    case _ => client.passed <= client.buffers
  }

  predicate AllNumbered(s: State) {
    forall c :: 0 <= c < |s.clients| ==> Numbered(s.clients[c])
  }

  lemma NumberedStepReceiver(s: State, l: Label)
    requires AllNumbered(s) && Enabled(s, l) && (l.Poll? || l.Read? || l.Push? || l.Announce? || l.Test?)
    ensures AllNumbered(Apply(s, l))
  {}

  lemma NumberedStepRest(s: State, l: Label)
    requires AllNumbered(s) && Enabled(s, l) && !(l.Poll? || l.Read? || l.Push? || l.Announce? || l.Test?)
    ensures AllNumbered(Apply(s, l))
  {}

  lemma {:induction false} NumberedHold(ls: seq<Label>)
    requires RunOk(ls)
    ensures AllNumbered(After(ls))
  {
    hide Enabled, Apply, AllNumbered;
    if ls == [] {
      assert AllNumbered(INITIAL) by { NobodyNumbered(); }
    } else {
      var s, l := After(ls[..|ls| - 1]), ls[|ls| - 1];
      NumberedHold(ls[..|ls| - 1]);
      if l.Poll? || l.Read? || l.Push? || l.Announce? || l.Test? {
        NumberedStepReceiver(s, l);
      } else {
        NumberedStepRest(s, l);
      }
    }
  }

  lemma NobodyNumbered()
    ensures AllNumbered(INITIAL)
  {}

  /** How often an entry has been pushed. */
  function Expected(s: State, e: Entry): nat {
    if e.client >= |s.clients| then 0
    else
      var client := s.clients[e.client];
      match e
      case New(_) => if Announced(client.receiver) then 1 else 0
      case Message(_, n) => if n < client.passed then 1 else 0
      case Lost(_) => if SignedOff(client.receiver) then 1 else 0
  }

  function PushedBy(touch: Touch, e: Entry): nat {
    match touch
    case Back(x) => if x == e then 1 else 0
    case Front(x) => if x == e then 1 else 0
    case _ => 0
  }

  lemma ExpectedStepPush(s: State, l: Label, e: Entry)
    requires AllNumbered(s) && Enabled(s, l) && (l.Push? || l.Announce?)
    ensures Expected(Apply(s, l), e) == Expected(s, e) + PushedBy(TouchOf(s, l), e)
  {
    assert Numbered(s.clients[l.c]);
    hide AllNumbered;
  }

  lemma ExpectedStepReceiver(s: State, l: Label, e: Entry)
    requires AllNumbered(s) && Enabled(s, l) && (l.Poll? || l.Read? || l.Test?)
    ensures Expected(Apply(s, l), e) == Expected(s, e) + PushedBy(TouchOf(s, l), e)
  {
    assert Numbered(s.clients[l.c]);
    hide AllNumbered;
  }

  lemma ExpectedStepRest(s: State, l: Label, e: Entry)
    requires Enabled(s, l) && !(l.Poll? || l.Read? || l.Push? || l.Announce? || l.Test?)
    ensures Expected(Apply(s, l), e) == Expected(s, e) + PushedBy(TouchOf(s, l), e)
  {}

  /** Popped or queued: every entry pushed is in one of the two, exactly once. */
  predicate EntryOnce(s: State, e: Entry) {
    multiset(s.out)[e] + multiset(s.queue)[e] == Expected(s, e)
  }

  lemma TouchCounts(s: State, t: State, touch: Touch, e: Entry)
    requires Touched(s, t, touch)
    ensures multiset(t.out)[e] + multiset(t.queue)[e] == multiset(s.out)[e] + multiset(s.queue)[e] + PushedBy(touch, e)
  {
    if touch.Pop? {
      assert s.queue == [s.queue[0]] + t.queue;
    }
  }

  /** Each client's NEW_CONNECTION, each of its messages and its LOST_CONNECTION enter the queue at most once, and
      are popped at most once; an entry pushed is queued until it is popped. */
  lemma {:induction false} EntriesOnce(ls: seq<Label>, e: Entry)
    requires RunOk(ls)
    ensures EntryOnce(After(ls), e)
  {
    hide Enabled, Apply, Expected, TouchOf, Touched, AllNumbered, PushedBy;
    if ls == [] {
      assert Expected(INITIAL, e) == 0 by { NobodyExpected(e); }
    } else {
      var s, l := After(ls[..|ls| - 1]), ls[|ls| - 1];
      EntriesOnce(ls[..|ls| - 1], e);
      NumberedHold(ls[..|ls| - 1]);
      StepTouches(s, l);
      TouchCounts(s, Apply(s, l), TouchOf(s, l), e);
      if l.Push? || l.Announce? {
        ExpectedStepPush(s, l, e);
      } else if l.Poll? || l.Read? || l.Test? {
        ExpectedStepReceiver(s, l, e);
      } else {
        ExpectedStepRest(s, l, e);
      }
    }
  }

  lemma NobodyExpected(e: Entry)
    ensures Expected(INITIAL, e) == 0
  {}

  function EntriesOf(q: seq<Entry>, c: nat): seq<Entry> {
    if q == [] then []
    else EntriesOf(q[..|q| - 1], c) + (if q[|q| - 1].client == c then [q[|q| - 1]] else [])
  }

  function Messages(c: nat, k: nat): seq<Entry> {
    if k == 0 then [] else Messages(c, k - 1) + [Message(c, k - 1)]
  }

  /** The pushes of client c at the back: first its NEW_CONNECTION, then its messages in the order it sent them. */
  function Script(s: State, c: nat): seq<Entry> {
    if c < |s.clients| && Announced(s.clients[c].receiver) then [New(c)] + Messages(c, s.clients[c].passed) else []
  }

  lemma EntriesOfBack(q: seq<Entry>, e: Entry, c: nat)
    ensures EntriesOf(q + [e], c) == EntriesOf(q, c) + (if e.client == c then [e] else [])
  {
    assert (q + [e])[..|q|] == q;
  }

  lemma ScriptStepPush(s: State, l: Label, c: nat)
    requires AllNumbered(s) && Enabled(s, l) && (l.Push? || l.Announce?)
    ensures Script(Apply(s, l), c)
            == Script(s, c) + (if TouchOf(s, l).Back? && TouchOf(s, l).e.client == c then [TouchOf(s, l).e] else [])
  {
    assert Numbered(s.clients[l.c]);
    assert Messages(c, s.clients[l.c].passed + 1) == Messages(c, s.clients[l.c].passed)
        + [Message(c, s.clients[l.c].passed)];
    hide Messages, AllNumbered;
  }

  lemma ScriptStepReceiver(s: State, l: Label, c: nat)
    requires Enabled(s, l) && (l.Poll? || l.Read? || l.Test?)
    ensures Script(Apply(s, l), c) == Script(s, c) && !TouchOf(s, l).Back?
  {
    hide Messages;
  }

  lemma ScriptStepRest(s: State, l: Label, c: nat)
    requires AllNumbered(s) && Enabled(s, l) && !(l.Poll? || l.Read? || l.Push? || l.Announce? || l.Test?)
    ensures Script(Apply(s, l), c) == Script(s, c) && !TouchOf(s, l).Back?
  {
    hide Messages;
  }

  lemma {:induction false} ClientsAreScripted(ls: seq<Label>, c: nat)
    requires RunOk(ls)
    ensures EntriesOf(After(ls).pushed, c) == Script(After(ls), c)
  {
    hide Enabled, Apply, Script, TouchOf, AllNumbered, EntriesOf;
    if ls == [] {
      assert EntriesOf([], c) == Script(INITIAL, c) by { NobodyScripted(c); }
    } else {
      var s, l := After(ls[..|ls| - 1]), ls[|ls| - 1];
      ClientsAreScripted(ls[..|ls| - 1], c);
      NumberedHold(ls[..|ls| - 1]);
      StepTouches(s, l);
      if TouchOf(s, l).Back? {
        EntriesOfBack(s.pushed, TouchOf(s, l).e, c);
      }
      if l.Push? || l.Announce? {
        ScriptStepPush(s, l, c);
      } else if l.Poll? || l.Read? || l.Test? {
        ScriptStepReceiver(s, l, c);
      } else {
        ScriptStepRest(s, l, c);
      }
    }
  }

  lemma NobodyScripted(c: nat)
    ensures EntriesOf([], c) == Script(INITIAL, c)
  {}

  // ---------- client status ----------

  predicate IsRunning(s: State, c: nat) {
    c < |s.clients| && s.clients[c].status.Running?
  }

  lemma StatusStep(s: State, l: Label, c: nat)
    requires Enabled(s, l) && c < |s.clients|
    ensures c < |Apply(s, l).clients|
    ensures IsRunning(Apply(s, l), c) ==> IsRunning(s, c)
  {}

  /** A client once told to stop never runs again, though STOPPED may become STOP. */
  lemma {:induction false} NeverRunsAgain(ls: seq<Label>, k: nat, c: nat)
    requires RunOk(ls) && k <= |ls| && RunOk(ls[..k])
    requires c < |After(ls[..k]).clients| && !IsRunning(After(ls[..k]), c)
    ensures c < |After(ls).clients| && !IsRunning(After(ls), c)
  {
    hide Enabled, Apply;
    if k == |ls| {
      assert ls[..k] == ls;
    } else {
      var ls0 := ls[..|ls| - 1];
      assert ls0[..k] == ls[..k];
      NeverRunsAgain(ls0, k, c);
      StatusStep(After(ls0), ls[|ls| - 1], c);
    }
  }

  /** Messages a receiver may still pass on before it looks at its status again. */
  function Underway(r: Receiver): nat {
    if r.Polling? || r.Reading? || r.Pushing? then 1 else 0
  }

  function Passes(s: State, c: nat): nat
    requires c < |s.clients|
  {
    s.clients[c].passed + Underway(s.clients[c].receiver)
  }

  lemma StoppedStep(s: State, l: Label, c: nat)
    requires Enabled(s, l) && c < |s.clients| && !IsRunning(s, c)
    ensures c < |Apply(s, l).clients| && !IsRunning(Apply(s, l), c)
    ensures Passes(Apply(s, l), c) <= Passes(s, c)
  {}

  /** A client told to stop gets at most one more message through, and none if its receiver was not waiting for
      or reading one at that moment. */
  lemma {:induction false} StoppedPassesAtMostOne(ls: seq<Label>, k: nat, c: nat)
    requires RunOk(ls) && k <= |ls| && RunOk(ls[..k])
    requires c < |After(ls[..k]).clients| && !IsRunning(After(ls[..k]), c)
    ensures c < |After(ls).clients| && !IsRunning(After(ls), c)
    ensures After(ls).clients[c].passed <= Passes(After(ls), c) <= Passes(After(ls[..k]), c)
  {
    hide Enabled, Apply, IsRunning;
    if k == |ls| {
      assert ls[..k] == ls;
    } else {
      var ls0 := ls[..|ls| - 1];
      assert ls0[..k] == ls[..k];
      StoppedPassesAtMostOne(ls0, k, c);
      StoppedStep(After(ls0), ls[|ls| - 1], c);
    }
  }

  predicate EndedStopped(s: State) {
    forall c :: 0 <= c < |s.clients| && s.clients[c].receiver.Finished? ==> !s.clients[c].status.Running?
  }

  lemma EndedStoppedStep(s: State, l: Label)
    requires EndedStopped(s) && Enabled(s, l)
    ensures EndedStopped(Apply(s, l))
  {}

  /** A client whose receiver thread has ended is never seen as running. */
  lemma {:induction false} EndedNeverRuns(ls: seq<Label>)
    requires RunOk(ls)
    ensures EndedStopped(After(ls))
  {
    hide Enabled, Apply;
    if ls != [] {
      EndedNeverRuns(ls[..|ls| - 1]);
      EndedStoppedStep(After(ls[..|ls| - 1]), ls[|ls| - 1]);
    }
  }

  // ---------- the received buffers ----------

  /** The buffer a receiver thread holds. */
  predicate HeldBy(r: Receiver, n: nat) {
    (r.Reading? || r.Pushing?) && r.n == n
  }

  predicate Held(s: State, b: Buffer) {
    b.client < |s.clients| && HeldBy(s.clients[b.client].receiver, b.n)
  }

  predicate Allocated(s: State, b: Buffer) {
    b.client < |s.clients| && b.n < s.clients[b.client].buffers
  }

  function InConsumer(s: State): Option<Buffer> {
    if s.consumer.Holding? then BufferOf(s.consumer.entry) else None
  }

  /** In how many of the four places {receiver thread, received queue, host, freed} a buffer is. */
  function Places(s: State, b: Buffer): nat {
    (if Held(s, b) then 1 else 0) + multiset(s.queue)[Message(b.client, b.n)] + Count(InConsumer(s), b) + s.freed[b]
  }

  predicate BufferOnce(s: State, b: Buffer) {
    Places(s, b) == if Allocated(s, b) then 1 else 0
  }

  lemma PopKeepsEntry(q: seq<Entry>, b: Buffer)
    requires q != []
    ensures multiset(q)[Message(b.client, b.n)] == multiset(q[1..])[Message(b.client, b.n)] + Count(BufferOf(q[0]), b)
  {
    assert q == [q[0]] + q[1..];
  }

  lemma BufferStepPush(s: State, l: Label, b: Buffer)
    requires BufferOnce(s, b) && Enabled(s, l) && (l.Push? || l.Announce?)
    ensures BufferOnce(Apply(s, l), b)
  {
    hide BufferOf;
  }

  lemma BufferStepPoll(s: State, l: Label, b: Buffer)
    requires AllNumbered(s) && BufferOnce(s, b) && Enabled(s, l) && l.Poll?
    ensures BufferOnce(Apply(s, l), b)
  {
    hide BufferOf;
    assert Numbered(s.clients[l.c]);
    hide AllNumbered;
    assert Apply(s, l).queue == s.queue && Apply(s, l).freed == s.freed && Apply(s, l).consumer == s.consumer;
  }

  lemma BufferStepRead(s: State, l: Label, b: Buffer)
    requires BufferOnce(s, b) && Enabled(s, l) && (l.Read? || l.Test?)
    ensures BufferOnce(Apply(s, l), b)
  {
    hide BufferOf;
    assert Apply(s, l).queue == s.queue && Apply(s, l).consumer == s.consumer;
  }

  lemma BufferStepThread(s: State, l: Label, b: Buffer)
    requires BufferOnce(s, b) && Enabled(s, l)
    requires l.AddClient? || l.Signal? || l.AnnounceLost? || l.Close? || l.StopAll?
    ensures BufferOnce(Apply(s, l), b)
  {
    hide BufferOf;
  }

  lemma BufferStepTake(s: State, l: Label, b: Buffer)
    requires BufferOnce(s, b) && Enabled(s, l) && (l.Take? || l.Wake?)
    ensures BufferOnce(Apply(s, l), b)
  {
    if s.queue != [] {
      PopKeepsEntry(s.queue, b);
    }
    hide BufferOf;
  }

  lemma BufferStepRelease(s: State, l: Label, b: Buffer)
    requires BufferOnce(s, b) && Enabled(s, l) && (l.TimeOut? || l.Release? || l.Spurious? || l.Deadline?)
    ensures BufferOnce(Apply(s, l), b)
  {
    assert Apply(s, l).queue == s.queue && Apply(s, l).clients == s.clients;
  }

  lemma BufferStepDestroy(s: State, b: Buffer)
    requires BufferOnce(s, b) && Enabled(s, DestroyOne)
    ensures BufferOnce(Apply(s, DestroyOne), b)
  {
    PopKeepsEntry(s.queue, b);
    assert Apply(s, DestroyOne).queue == s.queue[1..] && Apply(s, DestroyOne).consumer == s.consumer;
    hide BufferOf;
  }

  lemma BufferStepRest(s: State, l: Label, b: Buffer)
    requires BufferOnce(s, b) && Enabled(s, l)
    requires l.JoinListener? || l.JoinSender? || l.JoinReceivers? || l.DestroyEnd?
    ensures BufferOnce(Apply(s, l), b)
  {
    hide BufferOf;
  }

  /** Every buffer a receiver has allocated is in exactly one place, so none leaks and none is freed twice. */
  lemma {:induction false} EveryBufferInOnePlace(ls: seq<Label>, b: Buffer)
    requires RunOk(ls)
    ensures BufferOnce(After(ls), b)
  {
    hide Enabled, Apply, BufferOnce, AllNumbered;
    if ls == [] {
      assert BufferOnce(INITIAL, b) by { NoBuffers(b); }
    } else {
      var s, l := After(ls[..|ls| - 1]), ls[|ls| - 1];
      EveryBufferInOnePlace(ls[..|ls| - 1], b);
      NumberedHold(ls[..|ls| - 1]);
      if l.Push? || l.Announce? {
        BufferStepPush(s, l, b);
      } else if l.Poll? {
        BufferStepPoll(s, l, b);
      } else if l.Read? || l.Test? {
        BufferStepRead(s, l, b);
      } else if l.AddClient? || l.Signal? || l.AnnounceLost? || l.Close? || l.StopAll? {
        BufferStepThread(s, l, b);
      } else if l.Take? || l.Wake? {
        BufferStepTake(s, l, b);
      } else if l.TimeOut? || l.Release? || l.Spurious? || l.Deadline? {
        BufferStepRelease(s, l, b);
      } else if l.DestroyOne? {
        BufferStepDestroy(s, b);
      } else {
        BufferStepRest(s, l, b);
      }
    }
  }

  lemma NoBuffers(b: Buffer)
    ensures BufferOnce(INITIAL, b)
  {}

  // ---------- shutdown ----------

  predicate AfterJoin(s: State) {
    s.phase.Joined? || s.phase.Destroyed?
  }

  /** Once the receivers are joined they stay ended; once the queue is destroyed it stays empty. */
  predicate ShutDown(s: State) {
    && (AfterJoin(s) ==> forall c :: 0 <= c < |s.clients| ==> Done(s.clients[c].receiver))
    && (s.phase.Destroyed? ==> s.queue == [])
  }

  lemma ShutDownStep(s: State, l: Label)
    requires ShutDown(s) && Enabled(s, l)
    ensures ShutDown(Apply(s, l))
  {}

  lemma {:induction false} ShutDownHolds(ls: seq<Label>)
    requires RunOk(ls)
    ensures ShutDown(After(ls))
  {
    hide Enabled, Apply;
    if ls != [] {
      ShutDownHolds(ls[..|ls| - 1]);
      ShutDownStep(After(ls[..|ls| - 1]), ls[|ls| - 1]);
    }
  }

  /** When stopReceivingThreads returns, every client whose thread was created has announced itself exactly once
      and signed off exactly once. */
  lemma JoinedClientsSignedOff(ls: seq<Label>, c: nat)
    requires RunOk(ls) && AfterJoin(After(ls)) && c < |After(ls).clients| && !After(ls).clients[c].receiver.Failed?
    ensures var s := After(ls);
            && multiset(s.out)[New(c)] + multiset(s.queue)[New(c)] == 1
            && multiset(s.out)[Lost(c)] + multiset(s.queue)[Lost(c)] == 1
  {
    ShutDownHolds(ls);
    EntriesOnce(ls, New(c));
    EntriesOnce(ls, Lost(c));
  }

  /** After destroyReceivedQueue every received buffer has been freed exactly once, unless the host still holds it. */
  lemma DestroyFreesAll(ls: seq<Label>, b: Buffer)
    requires RunOk(ls) && After(ls).phase.Destroyed?
    ensures var s := After(ls);
            s.freed[b] + Count(InConsumer(s), b) == if Allocated(s, b) then 1 else 0
  {
    ShutDownHolds(ls);
    EveryBufferInOnePlace(ls, b);
    hide After, RunOk;
  }

  // ---------- what a departing client leaves behind ----------

  /** The entries of client c other than LOST_CONNECTION. */
  function Mine(q: seq<Entry>, c: nat): seq<Entry> {
    if q == [] then []
    else (if !q[0].Lost? && q[0].client == c then [q[0]] else []) + Mine(q[1..], c)
  }

  /** The entries of client c that were popped after its LOST_CONNECTION. */
  function Behind(out: seq<Entry>, c: nat): seq<Entry> {
    if out == [] then []
    else
      var e := out[|out| - 1];
      if e == Lost(c) then []
      else Behind(out[..|out| - 1], c) + (if !e.Lost? && e.client == c then [e] else [])
  }

  lemma MineHead(e: Entry, q: seq<Entry>, c: nat)
    ensures Mine([e] + q, c) == (if !e.Lost? && e.client == c then [e] else []) + Mine(q, c)
  {
    assert ([e] + q)[1..] == q;
  }

  lemma {:induction false} MineBack(q: seq<Entry>, e: Entry, c: nat)
    requires e.Lost? || e.client != c
    ensures Mine(q + [e], c) == Mine(q, c)
  {
    if q == [] {
      assert [e][1..] == [];
    } else {
      assert (q + [e])[1..] == q[1..] + [e];
      MineBack(q[1..], e, c);
    }
  }

  lemma BehindPop(out: seq<Entry>, e: Entry, c: nat)
    ensures Behind(out + [e], c)
            == if e == Lost(c) then [] else Behind(out, c) + (if !e.Lost? && e.client == c then [e] else [])
  {
    assert (out + [e])[..|out|] == out;
  }

  /** What of client c is popped after its LOST_CONNECTION, now or later. */
  function Left(s: State, c: nat): seq<Entry> {
    (if Lost(c) in s.queue then [] else Behind(s.out, c)) + Mine(s.queue, c)
  }

  predicate HasSignedOff(s: State, c: nat) {
    c < |s.clients| && SignedOff(s.clients[c].receiver)
  }

  lemma SignedOffPushesNothing(s: State, l: Label, c: nat)
    requires Enabled(s, l) && HasSignedOff(s, c)
    ensures HasSignedOff(Apply(s, l), c) && l != AnnounceLost(c)
    ensures TouchOf(s, l).Back? ==> TouchOf(s, l).e.client != c
    ensures TouchOf(s, l).Front? ==> TouchOf(s, l).e != Lost(c)
  {}

  lemma NoLostBehindOthers(e: Entry, q: seq<Entry>, c: nat)
    requires LostFirst([e] + q) && !e.Lost?
    ensures Lost(c) !in [e] + q
  {
    LostFirstPop(e, q);
    LanesHoldTheirKind(q);
    hide LostOf, OthersOf;
  }

  lemma OnceOnly(e: Entry, q: seq<Entry>)
    requires multiset([e] + q)[e] <= 1
    ensures e !in q
  {
    assert multiset([e] + q) == multiset{e} + multiset(q);
  }

  /** Left, in terms of the two sequences alone. */
  lemma LeftParts(s: State, c: nat)
    ensures Lost(c) in s.queue ==> Left(s, c) == Mine(s.queue, c)
    ensures Lost(c) !in s.queue ==> Left(s, c) == Behind(s.out, c) + Mine(s.queue, c)
  {
    hide Mine, Behind;
  }

  /** Popping an entry shifts it from one part to the other, or ends the wait for the LOST_CONNECTION. */
  lemma PopShifts(s: State, t: State, e: Entry, c: nat)
    requires s.queue == [e] + t.queue && t.out == s.out + [e]
    requires e == Lost(c) ==> Lost(c) !in t.queue
    requires !e.Lost? ==> Lost(c) !in s.queue && Lost(c) !in t.queue
    ensures Left(t, c) == Left(s, c)
  {
    var q := t.queue;
    MineHead(e, q, c);
    BehindPop(s.out, e, c);
    LeftParts(s, c);
    LeftParts(t, c);
    hide Mine, Behind, Left;
    if e == Lost(c) {
      assert Lost(c) in s.queue;
      assert [] + Mine(q, c) == Mine(q, c);
    } else if e.Lost? {
      assert Lost(c) in s.queue <==> Lost(c) in q;
      assert Behind(s.out, c) + [] == Behind(s.out, c) && [] + Mine(q, c) == Mine(q, c);
    } else {
      var mine := if e.client == c then [e] else [];
      assert Behind(s.out, c) + (mine + Mine(q, c)) == (Behind(s.out, c) + mine) + Mine(q, c);
    }
  }

  lemma LeftSamePop(s: State, t: State, c: nat)
    requires Touched(s, t, Pop) && LostFirst(s.queue)
    requires multiset(s.queue)[Lost(c)] <= 1
    ensures Left(t, c) == Left(s, c)
  {
    var e := s.queue[0];
    assert s.queue == [e] + t.queue;
    if e == Lost(c) {
      OnceOnly(e, t.queue);
    } else if !e.Lost? {
      NoLostBehindOthers(e, t.queue, c);
      assert forall x :: x in t.queue ==> x in [e] + t.queue;
    }
    hide LostFirst, Left;
    PopShifts(s, t, e, c);
  }

  lemma LeftSamePush(s: State, t: State, touch: Touch, c: nat)
    requires Touched(s, t, touch) && !touch.Pop?
    requires touch.Back? ==> touch.e.client != c
    requires touch.Front? ==> touch.e.Lost? && touch.e != Lost(c)
    ensures Left(t, c) == Left(s, c)
  {
    match touch
    case Nothing =>
    case Back(e) =>
      MineBack(s.queue, e, c);
      assert Lost(c) in t.queue <==> Lost(c) in s.queue;
    case Front(e) =>
      MineHead(e, s.queue, c);
      assert Lost(c) in t.queue <==> Lost(c) in s.queue;
  }

  lemma LeftStep(s: State, l: Label, c: nat)
    requires Enabled(s, l) && HasSignedOff(s, c) && LostFirst(s.queue) && EntryOnce(s, Lost(c))
    ensures HasSignedOff(Apply(s, l), c) && Left(Apply(s, l), c) == Left(s, c)
  {
    StepTouches(s, l);
    SignedOffPushesNothing(s, l, c);
    assert multiset(s.queue)[Lost(c)] <= 1;
    hide Enabled, Apply, TouchOf, Left, LostFirst, EntryOnce, Touched, HasSignedOff;
    if TouchOf(s, l).Pop? {
      LeftSamePop(s, Apply(s, l), c);
    } else {
      LeftSamePush(s, Apply(s, l), TouchOf(s, l), c);
    }
  }

  lemma LeftStarts(s: State, c: nat)
    requires Enabled(s, AnnounceLost(c))
    ensures HasSignedOff(Apply(s, AnnounceLost(c)), c) && Left(Apply(s, AnnounceLost(c)), c) == Mine(s.queue, c)
  {
    MineHead(Lost(c), s.queue, c);
    assert Apply(s, AnnounceLost(c)).queue == [Lost(c)] + s.queue;
    hide Mine;
  }

  lemma {:induction false} PrefixOk(ls: seq<Label>, j: nat)
    requires RunOk(ls) && j <= |ls|
    ensures RunOk(ls[..j])
  {
    hide Enabled, Apply;
    if j == |ls| {
      assert ls[..j] == ls;
    } else {
      PrefixOk(ls[..|ls| - 1], j);
      assert ls[..|ls| - 1][..j] == ls[..j];
    }
  }

  /** The entries of a client that were queued when its LOST_CONNECTION was pushed are exactly those that are popped
      after it. */
  lemma {:induction false} OvertakenAreLeft(ls: seq<Label>, j: nat, c: nat)
    requires RunOk(ls) && j < |ls| && ls[j] == AnnounceLost(c)
    ensures RunOk(ls[..j]) && HasSignedOff(After(ls), c) && Left(After(ls), c) == Mine(After(ls[..j]).queue, c)
  {
    hide Enabled, Apply, Left, HasSignedOff, EntryOnce, LostFirst, LatestFirst;
    PrefixOk(ls, j);
    var ls0 := ls[..|ls| - 1];
    if j == |ls| - 1 {
      LeftStarts(After(ls0), c);
    } else {
      assert ls0[..j] == ls[..j];
      OvertakenAreLeft(ls0, j, c);
      TwoLanesHold(ls0);
      EntriesOnce(ls0, Lost(c));
      LeftStep(After(ls0), ls[|ls| - 1], c);
    }
  }

  /** A LOST_CONNECTION that has been popped was pushed by one step of the run, and by one only. */
  lemma LostWasAnnounced(ls: seq<Label>, c: nat) returns (j: nat)
    requires RunOk(ls) && Lost(c) in After(ls).out
    ensures j < |ls| && ls[j] == AnnounceLost(c)
    ensures forall k :: 0 <= k < |ls| && ls[k] == AnnounceLost(c) ==> k == j
  {
    EntriesOnce(ls, Lost(c));
    assert HasSignedOff(After(ls), c);
    j := SignOffStep(ls, c);
    forall k | 0 <= k < |ls| && ls[k] == AnnounceLost(c) ensures k == j {
      if k < j {
        SignsOffOnce(ls, k, j, c);
      } else if j < k {
        SignsOffOnce(ls, j, k, c);
      }
    }
  }

  lemma SignOffBegins(s: State, l: Label, c: nat)
    requires Enabled(s, l) && HasSignedOff(Apply(s, l), c)
    ensures HasSignedOff(s, c) || l == AnnounceLost(c)
  {}

  lemma {:induction false} SignOffStep(ls: seq<Label>, c: nat) returns (j: nat)
    requires RunOk(ls) && HasSignedOff(After(ls), c)
    ensures j < |ls| && ls[j] == AnnounceLost(c)
  {
    hide Enabled, Apply, HasSignedOff;
    assert ls != [] by { NobodySignedOff(c); }
    var ls0, l := ls[..|ls| - 1], ls[|ls| - 1];
    SignOffBegins(After(ls0), l, c);
    if l == AnnounceLost(c) {
      j := |ls| - 1;
    } else {
      j := SignOffStep(ls0, c);
    }
  }

  lemma NobodySignedOff(c: nat)
    ensures !HasSignedOff(INITIAL, c)
  {}

  lemma SignsOffOnce(ls: seq<Label>, j: nat, k: nat, c: nat)
    requires RunOk(ls) && j < k < |ls| && ls[j] == AnnounceLost(c)
    ensures ls[k] != AnnounceLost(c)
  {
    PrefixOk(ls, k);
    PrefixOk(ls, k + 1);
    assert ls[..k + 1][..k] == ls[..k] && ls[..k][j] == ls[j] && ls[..k + 1][k] == ls[k];
    OvertakenAreLeft(ls[..k], j, c);
    assert Enabled(After(ls[..k]), ls[k]);
    SignedOffPushesNothing(After(ls[..k]), ls[k], c);
  }

  // ---------- two runs in which something is overtaken ----------

  lemma EmptyRun()
    ensures RunOk([]) && After([]) == INITIAL
  {}

  lemma Joining() returns (ls: seq<Label>)
    ensures RunOk(ls)
    ensures After(ls) == INITIAL.(clients := [Client(Running, Created, 0, 0)])
  {
    hide RunOk, After;
    EmptyRun();
    ls := [AddClient(true)];
    RunExtends([], AddClient(true));
    assert [] + [AddClient(true)] == ls;
  }

  lemma Announcing() returns (ls: seq<Label>)
    ensures RunOk(ls)
    ensures var s := After(ls);
            s.clients == [Client(Running, Testing, 0, 0)] && s.queue == [New(0)] && s.out == [] && s.consumer == Idle
            && s.phase == Serving
  {
    hide RunOk, After;
    ls := Joining();
    RunExtends(ls, Announce(0));
    ls := ls + [Announce(0)];
  }

  /** From testing its status to leaving, on a broken connection. */
  lemma BreaksOff(ls0: seq<Label>) returns (ls: seq<Label>)
    requires RunOk(ls0) && |After(ls0).clients| == 1 && After(ls0).phase == Serving
    requires After(ls0).clients[0].receiver == Testing && After(ls0).clients[0].status == Running
    ensures RunOk(ls)
    ensures var s, s0 := After(ls), After(ls0);
            s.queue == [Lost(0)] + s0.queue && s.out == s0.out && s.consumer == s0.consumer && s.phase == Serving
  {
    hide RunOk, After;
    RunExtends(ls0, Test(0));
    ls := ls0 + [Test(0)];
    assert After(ls) == Move(After(ls0), 0, Polling);
    RunExtends(ls, Poll(0, Broken));
    ls := ls + [Poll(0, Broken)];
    assert After(ls) == Move(Move(After(ls0), 0, Polling), 0, Leaving);
    RunExtends(ls, AnnounceLost(0));
    ls := ls + [AnnounceLost(0)];
  }

  /** The host takes the next entry and lets it go. */
  lemma TakesOne(ls0: seq<Label>) returns (ls: seq<Label>)
    requires RunOk(ls0) && After(ls0).consumer == Idle && After(ls0).phase == Serving && After(ls0).queue != []
    ensures RunOk(ls)
    ensures var s, s0 := After(ls), After(ls0);
            s.queue == s0.queue[1..] && s.out == s0.out + [s0.queue[0]] && s.consumer == Idle && s.phase == Serving
            && s.clients == s0.clients
  {
    hide RunOk, After;
    RunExtends(ls0, Take);
    ls := ls0 + [Take];
    RunExtends(ls, Release);
    ls := ls + [Release];
  }

  /** The host can see a client leave before it sees it come. */
  lemma OvertakenConnection() returns (ls: seq<Label>)
    ensures RunOk(ls) && After(ls).queue == [] && After(ls).out == [Lost(0), New(0)]
  {
    hide RunOk, After;
    ls := Announcing();
    ls := BreaksOff(ls);
    ls := TakesOne(ls);
    ls := TakesOne(ls);
  }

  lemma OneMessage(ls0: seq<Label>) returns (ls: seq<Label>)
    requires RunOk(ls0) && After(ls0).clients == [Client(Running, Testing, 0, 0)] && After(ls0).phase == Serving
    requires After(ls0).consumer == Idle && After(ls0).queue == []
    ensures RunOk(ls)
    ensures var s := After(ls);
            s.clients == [Client(Running, Testing, 1, 1)] && s.queue == [Message(0, 0)] && s.out == After(ls0).out
            && s.consumer == Idle && s.phase == Serving
  {
    hide RunOk, After;
    RunExtends(ls0, Test(0));
    ls := ls0 + [Test(0)];
    assert After(ls) == After(ls0).(clients := [Client(Running, Polling, 0, 0)]);
    RunExtends(ls, Poll(0, Header));
    ls := ls + [Poll(0, Header)];
    assert After(ls) == After(ls0).(clients := [Client(Running, Reading(0), 1, 0)]);
    RunExtends(ls, Read(0, true));
    ls := ls + [Read(0, true)];
    assert After(ls) == After(ls0).(clients := [Client(Running, Pushing(0), 1, 0)]);
    RunExtends(ls, Push(0));
    ls := ls + [Push(0)];
  }

  /** The host can see a client leave before it sees its last message. */
  lemma OvertakenMessage() returns (ls: seq<Label>)
    ensures RunOk(ls) && After(ls).queue == [] && After(ls).out == [New(0), Lost(0), Message(0, 0)]
  {
    hide RunOk, After;
    ls := Announcing();
    RunExtends(ls, Take);
    var l1 := ls + [Take];
    RunExtends(l1, Release);
    ls := l1 + [Release];
    assert After(ls).clients == [Client(Running, Testing, 0, 0)];
    ls := OneMessage(ls);
    ls := BreaksOff(ls);
    ls := TakesOne(ls);
    ls := TakesOne(ls);
  }

  // ---------- the loop that tells every client to stop ----------

  method StopEveryClient(table: array<Client>)
    modifies table
    ensures table[..] == AllStopped(old(table[..]))
  {
    for i := 0 to table.Length
      invariant forall j :: 0 <= j < i ==> table[j] == old(table[j]).(status := Stop)
      invariant forall j :: i <= j < table.Length ==> table[j] == old(table[j])
    {
      table[i] := table[i].(status := Stop);
    }
  }
}
