/** The sending side of the server as a system of steps, one per lock-protected region
    (Server/server_send.c, with the client table of Server/server.c). One run of the server, from start to the end
    of the sender thread and beyond. */
module Outgoing {
  import opened Common

  /** Every call hands over a buffer of its own, so a buffer is named by the call that handed it over. */
  datatype Buffer = OfSend(n: nat) | OfBroadcast(k: nat)

  /** A whole frame that reached a client: the n-th sendTo or the k-th sendToEveryone. */
  datatype Delivery = Delivery(client: nat, what: Buffer)

  /** Where the sender thread is. */
  datatype Pc =
    | Top                                                  // testing isStopped()
    | Locking                                              // about to lock message_mutex
    | TestQueue | TestSlot                                 // in waitForMessage, message_mutex held
    | Waiting                                              // in the timed wait, message_mutex released
    | Woken                                                // message_mutex held again
    | Ready                                                // waitForMessage returned 0, message_mutex held
    | TakingSlot                                           // the queue was found empty, message_mutex held
    | BroadcastNull                                        // took a null slot
    | PoppedOne(n: nat) | SendingOne(n: nat, status: Status) | SentOne(n: nat)
    | PoppedAll(k: nat) | SendingAll(k: nat, copy: seq<Status>, i: nat)
    | Draining                                             // queue lock held
    | Drained
    | Freeing(last: Option<nat>)                           // has read the slot for the last time
    | Done

  datatype State = State(
    stopped: bool,
    sends: seq<nat>,            // the client of every sendTo call so far
    broadcasts: nat,            // how many sendToEveryone calls so far
    queue: seq<nat>,            // outgoing_queue: indices into sends
    slot: Option<nat>,          // message_to_everyone: the index of a broadcast
    dangling: bool,             // the slot still names a buffer the sender has freed or is about to free
    pc: Pc,
    clients: seq<Status>,
    freed: multiset<Buffer>,
    handled: nat,               // how many sendTo messages the sender has finished with
    deliveries: seq<Delivery>,
    late: bool,                 // a broadcast arrived while the slot was dangling
    missed: bool)               // a call handed over a buffer when nobody would free it any more

  const INITIAL := State(false, [], 0, [], None, false, Top, [], multiset{}, 0, [], false, false)

  predicate HoldsMessageMutex(pc: Pc) {
    pc.TestQueue? || pc.TestSlot? || pc.Woken? || pc.Ready? || pc.TakingSlot?
  }

  predicate AfterDrain(pc: Pc) {
    pc.Drained? || pc.Freeing? || pc.Done?
  }

  datatype Label =
    // producers and the rest of the server
    | SendTo(client: nat) | SendToEveryone | StopServer | AddClient | ClientChanges(client: nat, status: Status)
    // the sender thread
    | ReadStop | LockMessage | CheckQueue | CheckSlot | Wake | CheckStop | Choose | TakeSlot
    | CopyClient | CopyClients | Transmit(whole: bool) | Release
    | DrainOne | DrainEnd | ReadSlot | FreeSlot

  predicate Enabled(s: State, l: Label) {
    match l
    case SendTo(c) => c < |s.clients| && !s.pc.Draining?
    case SendToEveryone => !HoldsMessageMutex(s.pc)
    case StopServer => true
    case AddClient => true
    case ClientChanges(c, status) => c < |s.clients| && !status.Running?
    case ReadStop => s.pc.Top?
    case LockMessage => s.pc.Locking?
    case CheckQueue => s.pc.TestQueue?
    case CheckSlot => s.pc.TestSlot?
    case Wake => s.pc.Waiting?
    case CheckStop => s.pc.Woken?
    case Choose => s.pc.Ready?
    case TakeSlot => s.pc.TakingSlot?
    case CopyClient => s.pc.PoppedOne? && s.pc.n < |s.sends| && s.sends[s.pc.n] < |s.clients|
    case CopyClients => s.pc.PoppedAll?
    case Transmit(_) =>
      || (s.pc.SendingOne? && s.pc.n < |s.sends| && s.sends[s.pc.n] < |s.clients|)
      || (s.pc.SendingAll? && s.pc.i < |s.pc.copy| <= |s.clients|)
    case Release => s.pc.SentOne? || (s.pc.SendingAll? && s.pc.i == |s.pc.copy|)
    case DrainOne => s.pc.Draining? && s.queue != []
    case DrainEnd => s.pc.Draining? && s.queue == []
    case ReadSlot => s.pc.Drained?
    case FreeSlot => s.pc.Freeing?
  }

  function SlotBuffer(slot: Option<nat>): Option<Buffer> {
    if slot.Some? then Some(OfBroadcast(slot.value)) else None
  }

  /** sendMessageTo for one client, given the copy of its status: a frame goes out whole, or the client is
      signalled to stop; nothing is attempted for a client that was not running. */
  function Transmitted(s: State, c: nat, status: Status, what: Buffer, whole: bool, next: Pc): (r: State)
    requires c < |s.clients|
    ensures r == s.(pc := next, clients := r.clients, deliveries := r.deliveries) && |r.clients| == |s.clients|
  {
    if !status.Running? then s.(pc := next)
    else if whole then s.(pc := next, deliveries := s.deliveries + [Delivery(c, what)])
    else s.(pc := next, clients := s.clients[c := Stop])
  }

  function TransmitOne(s: State, whole: bool): (r: State)
    requires s.pc.SendingOne? && Enabled(s, Transmit(whole))
    ensures r == s.(pc := SentOne(s.pc.n), clients := r.clients, deliveries := r.deliveries, handled := s.handled + 1)
    ensures |r.clients| == |s.clients|
  {
    Transmitted(s, s.sends[s.pc.n], s.pc.status, OfSend(s.pc.n), whole, SentOne(s.pc.n)).(handled := s.handled + 1)
  }

  function TransmitAll(s: State, whole: bool): (r: State)
    requires s.pc.SendingAll? && Enabled(s, Transmit(whole))
    ensures r == s.(pc := SendingAll(s.pc.k, s.pc.copy, s.pc.i + 1), clients := r.clients, deliveries := r.deliveries)
    ensures |r.clients| == |s.clients|
  {
    Transmitted(s, s.pc.i, s.pc.copy[s.pc.i], OfBroadcast(s.pc.k), whole, SendingAll(s.pc.k, s.pc.copy, s.pc.i + 1))
  }

  /** Producers and the rest of the server. */
  predicate IsOutside(l: Label) {
    l.SendTo? || l.SendToEveryone? || l.StopServer? || l.AddClient? || l.ClientChanges?
  }

  /** The sender up to the moment it has something to send: only its place changes. */
  predicate IsWaiting(l: Label) {
    l.ReadStop? || l.LockMessage? || l.CheckQueue? || l.CheckSlot? || l.Wake? || l.CheckStop?
  }

  /** The sender after its loop. */
  predicate IsEnding(l: Label) {
    l.DrainOne? || l.DrainEnd? || l.ReadSlot? || l.FreeSlot?
  }

  predicate IsSending(l: Label) {
    !IsOutside(l) && !IsWaiting(l) && !IsEnding(l)
  }

  function OutsideStep(s: State, l: Label): State
    requires IsOutside(l) && Enabled(s, l)
  {
    match l
    case SendTo(c) =>
      s.(sends := s.sends + [c], queue := s.queue + [|s.sends|], missed := s.missed || AfterDrain(s.pc))
    case SendToEveryone =>
      s.(freed := Free(s.freed, SlotBuffer(s.slot)), slot := Some(s.broadcasts), broadcasts := s.broadcasts + 1,
         dangling := false, late := s.late || s.dangling, missed := s.missed || s.pc.Freeing? || s.pc.Done?)
    case StopServer => s.(stopped := true)
    case AddClient => s.(clients := s.clients + [Running])
    case ClientChanges(c, status) => s.(clients := s.clients[c := status])
  }

  function WaitingPc(s: State, l: Label): (pc: Pc)
    requires IsWaiting(l) && Enabled(s, l)
    ensures pc.Draining? ==> s.stopped
    ensures pc.Draining? || pc.Locking? || pc.TestQueue? || pc.TestSlot? || pc.Waiting? || pc.Woken? || pc.Ready?
    ensures pc.Ready? ==> s.queue != [] || s.slot.Some?
  {
    match l
    case ReadStop => if s.stopped then Draining else Locking
    case LockMessage => TestQueue
    case CheckQueue => if s.queue == [] then TestSlot else Ready
    case CheckSlot => if s.slot.None? then Waiting else Ready
    case Wake => Woken
    case CheckStop => if s.stopped then Draining else TestQueue
  }

  function SendingStep(s: State, l: Label): State
    requires IsSending(l) && Enabled(s, l)
  {
    match l
    case Choose => if s.queue == [] then s.(pc := TakingSlot)
                   else s.(pc := PoppedOne(s.queue[0]), queue := s.queue[1..])
    case TakeSlot => if s.slot.None? then s.(pc := BroadcastNull) else s.(pc := PoppedAll(s.slot.value), slot := None)
    case CopyClient => s.(pc := SendingOne(s.pc.n, s.clients[s.sends[s.pc.n]]))
    case CopyClients => s.(pc := SendingAll(s.pc.k, s.clients, 0))
    case Transmit(whole) =>
      if s.pc.SendingOne? then TransmitOne(s, whole) else TransmitAll(s, whole)
    case Release => s.(pc := Top, freed := Free(s.freed, InHand(s.pc)))
  }

  function EndingStep(s: State, l: Label): State
    requires IsEnding(l) && Enabled(s, l)
  {
    match l
    case DrainOne => s.(queue := s.queue[1..], freed := Free(s.freed, Some(OfSend(s.queue[0]))))
    case DrainEnd => s.(pc := Drained)
    case ReadSlot => s.(pc := Freeing(s.slot), dangling := s.slot.Some?)
    case FreeSlot => s.(pc := Done, freed := Free(s.freed, InHand(s.pc)))
  }

  function Apply(s: State, l: Label): State
    requires Enabled(s, l)
  {
    if IsOutside(l) then OutsideStep(s, l)
    else if IsWaiting(l) then s.(pc := WaitingPc(s, l))
    else if IsEnding(l) then EndingStep(s, l)
    else SendingStep(s, l)
  }

  /** The buffer the sender holds and will free. */
  function InHand(pc: Pc): Option<Buffer> {
    match pc
    case PoppedOne(n) => Some(OfSend(n))
    case SendingOne(n, _) => Some(OfSend(n))
    case SentOne(n) => Some(OfSend(n))
    case PoppedAll(k) => Some(OfBroadcast(k))
    case SendingAll(k, _, _) => Some(OfBroadcast(k))
    case Freeing(last) => SlotBuffer(last)
    case _ => None
  }

  /** What trying to send to one client does to the clients and to what has been delivered. */
  predicate Tried(s: State, t: State, to: nat, status: Status, what: Buffer)
    requires to < |s.clients|
  {
    || (t.clients == s.clients && t.deliveries == s.deliveries && !status.Running?)
    || (t.clients == s.clients && t.deliveries == s.deliveries + [Delivery(to, what)] && status.Running?)
    || (t.clients == s.clients[to := Stop] && t.deliveries == s.deliveries && status.Running?)
  }

  lemma TransmitOneEffect(s: State, whole: bool)
    requires s.pc.SendingOne? && Enabled(s, Transmit(whole))
    ensures var t := Apply(s, Transmit(whole));
            && t == TransmitOne(s, whole)
            && Tried(s, t, s.sends[s.pc.n], s.pc.status, OfSend(s.pc.n))
  {
    hide OutsideStep, WaitingPc, EndingStep, InHand, SlotBuffer;
  }

  lemma TransmitAllEffect(s: State, whole: bool)
    requires s.pc.SendingAll? && Enabled(s, Transmit(whole))
    ensures var t := Apply(s, Transmit(whole));
            && t == TransmitAll(s, whole)
            && Tried(s, t, s.pc.i, s.pc.copy[s.pc.i], OfBroadcast(s.pc.k))
  {
    hide OutsideStep, WaitingPc, EndingStep, InHand, SlotBuffer;
  }

  // ---------- runs ----------

  predicate RunOk(ls: seq<Label>)
    decreases |ls|, 0
  {
    ls == [] || (RunOk(ls[..|ls| - 1]) && Enabled(After(ls[..|ls| - 1]), ls[|ls| - 1]))
  }

  function After(ls: seq<Label>): State
    requires RunOk(ls)
    decreases |ls|, 1
  {
    if ls == [] then INITIAL else Apply(After(ls[..|ls| - 1]), ls[|ls| - 1])
  }

  // ---------- the queue, the slot and the sender's control ----------

  /** The queue holds the latest sends, in call order. */
  predicate QueueShape(s: State) {
    && |s.queue| <= |s.sends|
    && (forall i :: 0 <= i < |s.queue| ==> s.queue[i] == |s.sends| - |s.queue| + i)
    && (forall n :: 0 <= n < |s.sends| ==> s.sends[n] < |s.clients|)
    && (s.pc.PoppedOne? || s.pc.SendingOne? || s.pc.SentOne? ==> s.pc.n + 1 == |s.sends| - |s.queue|)
    && (s.pc.SendingAll? ==> s.pc.i <= |s.pc.copy| <= |s.clients|)
  }

  /** The slot holds the latest broadcast; a buffer in the sender's hand came before it. */
  predicate SlotShape(s: State) {
    && (s.slot.Some? ==> s.slot.value + 1 == s.broadcasts)
    && (s.pc.PoppedAll? || s.pc.SendingAll? ==> s.pc.k < s.broadcasts && (s.slot.Some? ==> s.pc.k < s.slot.value))
    && (s.pc.Freeing? && s.pc.last.Some? ==> s.pc.last.value < s.broadcasts && (s.slot == s.pc.last || s.late))
    && (s.dangling ==> s.slot.Some? && (s.pc.Done? || s.pc == Freeing(s.slot)))
    && (s.pc.Freeing? && s.pc.last.Some? && s.slot == s.pc.last ==> s.dangling)
  }

  /** Once the wait is over there is something to send. */
  predicate ControlShape(s: State) {
    && (s.pc.Ready? ==> s.queue != [] || s.slot.Some?)
    && (s.pc.TakingSlot? ==> s.slot.Some?)
    && !s.pc.BroadcastNull?
  }

  predicate ShutdownShape(s: State) {
    && (AfterDrain(s.pc) || s.pc.Draining? ==> s.stopped)
    && (AfterDrain(s.pc) && !s.missed ==> s.queue == [] && (s.pc.Drained? || s.slot.None? || s.dangling))
    && (s.missed ==> AfterDrain(s.pc))
    && (s.missed && !s.late ==> s.queue != [] || (s.slot.Some? && !s.dangling))
    && (s.missed && s.pc.Drained? ==> s.queue != [])
    && (s.late ==> s.missed && !s.pc.Drained?)
    && (s.dangling ==> !s.late)
  }

  predicate Shape(s: State) {
    QueueShape(s) && SlotShape(s) && ControlShape(s) && ShutdownShape(s)
  }

  lemma QueueStepMoves(s: State, l: Label)
    requires QueueShape(s) && Enabled(s, l) && (l.SendTo? || l.Choose? || l.DrainOne?)
    ensures QueueShape(Apply(s, l))
  {
    hide InHand, SlotBuffer, WaitingPc;
  }

  lemma QueueStepTransmit(s: State, l: Label)
    requires QueueShape(s) && Enabled(s, l) && (l.Transmit? || l.CopyClients? || l.CopyClient?)
    ensures QueueShape(Apply(s, l))
  {
    hide InHand, SlotBuffer, TransmitOne, TransmitAll, OutsideStep, WaitingPc, EndingStep;
  }

  lemma QueueStepWaiting(s: State, l: Label)
    requires QueueShape(s) && Enabled(s, l) && IsWaiting(l)
    ensures QueueShape(Apply(s, l))
  {
    hide InHand, SlotBuffer, TransmitOne, TransmitAll, OutsideStep, WaitingPc, EndingStep, SendingStep;
  }

  lemma QueueStepOutside(s: State, l: Label)
    requires QueueShape(s) && Enabled(s, l) && (l.SendToEveryone? || l.StopServer? || l.AddClient? || l.ClientChanges?)
    ensures QueueShape(Apply(s, l))
  {
    hide InHand, SlotBuffer, TransmitOne, TransmitAll, WaitingPc, EndingStep, SendingStep;
  }

  lemma QueueStepRest(s: State, l: Label)
    requires QueueShape(s) && Enabled(s, l)
    requires l.TakeSlot? || l.Release? || l.DrainEnd? || l.ReadSlot? || l.FreeSlot?
    ensures QueueShape(Apply(s, l))
  {
    hide InHand, SlotBuffer, TransmitOne, TransmitAll, WaitingPc, OutsideStep;
  }

  lemma QueueStep(s: State, l: Label)
    requires QueueShape(s) && Enabled(s, l)
    ensures QueueShape(Apply(s, l))
  {
    hide QueueShape, Enabled, Apply;
    if l.SendTo? || l.Choose? || l.DrainOne? {
      QueueStepMoves(s, l);
    } else if l.Transmit? || l.CopyClients? || l.CopyClient? {
      QueueStepTransmit(s, l);
    } else if IsWaiting(l) {
      QueueStepWaiting(s, l);
    } else if IsOutside(l) {
      QueueStepOutside(s, l);
    } else {
      QueueStepRest(s, l);
    }
  }

  lemma SlotStepSending(s: State, l: Label)
    requires SlotShape(s) && Enabled(s, l) && (l.Transmit? || l.TakeSlot? || l.CopyClients? || l.Release?)
    ensures SlotShape(Apply(s, l))
  {
    hide InHand, SlotBuffer, TransmitOne, TransmitAll, OutsideStep, WaitingPc, EndingStep;
  }

  lemma SlotStepRest(s: State, l: Label)
    requires SlotShape(s) && Enabled(s, l) && !(l.Transmit? || l.TakeSlot? || l.CopyClients? || l.Release?)
    ensures SlotShape(Apply(s, l))
  {
    hide InHand, SlotBuffer, TransmitOne, TransmitAll;
  }

  lemma SlotStep(s: State, l: Label)
    requires SlotShape(s) && Enabled(s, l)
    ensures SlotShape(Apply(s, l))
  {
    hide SlotShape, Enabled, Apply;
    if l.Transmit? || l.TakeSlot? || l.CopyClients? || l.Release? {
      SlotStepSending(s, l);
    } else {
      SlotStepRest(s, l);
    }
  }

  lemma ControlWaiting(s: State, l: Label)
    requires ControlShape(s) && Enabled(s, l) && IsWaiting(l)
    ensures ControlShape(Apply(s, l))
  {
    hide InHand, SlotBuffer, TransmitOne, TransmitAll, OutsideStep, WaitingPc, EndingStep, SendingStep;
  }

  lemma ControlRest(s: State, l: Label)
    requires ControlShape(s) && Enabled(s, l) && !IsWaiting(l)
    ensures ControlShape(Apply(s, l))
  {
    hide InHand, SlotBuffer, TransmitOne, TransmitAll, WaitingPc;
  }

  lemma ControlStep(s: State, l: Label)
    requires ControlShape(s) && Enabled(s, l)
    ensures ControlShape(Apply(s, l))
  {
    hide ControlShape, Enabled, Apply;
    if IsWaiting(l) {
      ControlWaiting(s, l);
    } else {
      ControlRest(s, l);
    }
  }

  lemma ShutdownStepProducer(s: State, l: Label)
    requires ShutdownShape(s) && SlotShape(s) && Enabled(s, l) && (l.SendTo? || l.SendToEveryone?)
    ensures ShutdownShape(Apply(s, l))
  {
    hide SlotBuffer, WaitingPc, EndingStep, SendingStep;
  }

  lemma ShutdownStepDrain(s: State, l: Label)
    requires ShutdownShape(s) && SlotShape(s) && Enabled(s, l)
    requires l.DrainOne? || l.DrainEnd? || l.ReadSlot? || l.FreeSlot? || l.StopServer?
    ensures ShutdownShape(Apply(s, l))
  {
    hide InHand, SlotBuffer, WaitingPc, SendingStep;
  }

  lemma ShutdownStepWaiting(s: State, l: Label)
    requires ShutdownShape(s) && Enabled(s, l) && IsWaiting(l)
    ensures ShutdownShape(Apply(s, l))
  {
    hide InHand, SlotBuffer, TransmitOne, TransmitAll, OutsideStep, WaitingPc, EndingStep, SendingStep;
  }

  lemma ShutdownStepRest(s: State, l: Label)
    requires ShutdownShape(s) && Enabled(s, l) && !IsWaiting(l) && !(l.SendTo? || l.SendToEveryone?)
    requires !(l.DrainOne? || l.DrainEnd? || l.ReadSlot? || l.FreeSlot? || l.StopServer?)
    ensures ShutdownShape(Apply(s, l))
  {
    hide InHand, SlotBuffer, TransmitOne, TransmitAll;
  }

  lemma ShutdownStep(s: State, l: Label)
    requires ShutdownShape(s) && SlotShape(s) && Enabled(s, l)
    ensures ShutdownShape(Apply(s, l))
  {
    hide ShutdownShape, SlotShape, Enabled, Apply;
    if l.SendTo? || l.SendToEveryone? {
      ShutdownStepProducer(s, l);
    } else if l.DrainOne? || l.DrainEnd? || l.ReadSlot? || l.FreeSlot? || l.StopServer? {
      ShutdownStepDrain(s, l);
    } else if IsWaiting(l) {
      ShutdownStepWaiting(s, l);
    } else {
      ShutdownStepRest(s, l);
    }
  }

  lemma ShapeStep(s: State, l: Label)
    requires Shape(s) && Enabled(s, l)
    ensures Shape(Apply(s, l))
  {
    QueueStep(s, l);
    SlotStep(s, l);
    ControlStep(s, l);
    ShutdownStep(s, l);
    hide QueueShape, SlotShape, ControlShape, ShutdownShape, Enabled, Apply;
  }

  lemma {:induction false} ShapeHolds(ls: seq<Label>)
    requires RunOk(ls)
    ensures Shape(After(ls))
  {
    hide Apply, Enabled;
    if ls != [] {
      ShapeHolds(ls[..|ls| - 1]);
      ShapeStep(After(ls[..|ls| - 1]), ls[|ls| - 1]);
    }
  }

  /** The sender never broadcasts a null message. */
  lemma NeverBroadcastsNull(ls: seq<Label>)
    requires RunOk(ls)
    ensures var s := After(ls);
            !s.pc.BroadcastNull? && (s.pc.TakingSlot? ==> s.slot.Some?)
  {
    ShapeHolds(ls);
  }

  // ---------- the buffer ledger ----------

  predicate Handed(s: State, b: Buffer) {
    match b
    case OfSend(n) => n < |s.sends|
    case OfBroadcast(k) => k < s.broadcasts
  }

  /** How often a buffer is in the outgoing queue. */
  function Queued(s: State, b: Buffer): nat {
    if b.OfSend? then multiset(s.queue)[b.n] else 0
  }

  predicate InSlot(s: State, b: Buffer) {
    !s.dangling && s.slot.Some? && b == OfBroadcast(s.slot.value)
  }

  /** In how many of the four places {freed, sender's hand, outgoing queue, broadcast slot} a buffer is,
      counting repeated frees. */
  function Places(s: State, b: Buffer): nat {
    s.freed[b] + Count(InHand(s.pc), b) + Queued(s, b) + (if InSlot(s, b) then 1 else 0)
  }

  predicate Accounted(s: State, b: Buffer) {
    Places(s, b) == if Handed(s, b) then 1 else 0
  }

  lemma QueuedPop(s: State, b: Buffer)
    requires s.queue != []
    ensures Queued(s, b) == Queued(s.(queue := s.queue[1..]), b) + (if b == OfSend(s.queue[0]) then 1 else 0)
  {
    assert s.queue == [s.queue[0]] + s.queue[1..];
  }

  lemma AccountedSend(s: State, client: nat, b: Buffer)
    requires Accounted(s, b) && Enabled(s, SendTo(client))
    ensures Accounted(Apply(s, SendTo(client)), b)
  {
    hide InHand, SlotBuffer, TransmitOne, TransmitAll, WaitingPc, EndingStep, SendingStep;
  }

  lemma AccountedPop(s: State, l: Label, b: Buffer)
    requires Accounted(s, b) && Enabled(s, l) && (l.Choose? || l.DrainOne?)
    ensures Accounted(Apply(s, l), b)
  {
    hide SlotBuffer, TransmitOne, TransmitAll, OutsideStep, WaitingPc;
    if s.queue != [] {
      QueuedPop(s, b);
    }
  }

  lemma AccountedBroadcast(s: State, b: Buffer)
    requires Shape(s) && Accounted(s, b) && Enabled(s, SendToEveryone) && !Apply(s, SendToEveryone).late
    ensures Accounted(Apply(s, SendToEveryone), b)
  {
    hide QueueShape, ControlShape, TransmitOne, TransmitAll, WaitingPc, EndingStep, SendingStep;
  }

  lemma AccountedTake(s: State, b: Buffer)
    requires SlotShape(s) && ControlShape(s) && Accounted(s, b) && Enabled(s, TakeSlot)
    ensures Accounted(Apply(s, TakeSlot), b)
  {
    hide OutsideStep, WaitingPc, EndingStep;
    var t := s.(pc := PoppedAll(s.slot.value), slot := None);
    assert Apply(s, TakeSlot) == t;
    assert !s.dangling && InHand(s.pc) == None && InHand(t.pc) == Some(OfBroadcast(s.slot.value));
    hide Apply, Enabled, SlotShape, ControlShape, InHand, Queued, Handed;
    assert Queued(t, b) == Queued(s, b) by { SameQueue(s, t, b); }
    assert Handed(t, b) == Handed(s, b) by { SameHanded(s, t, b); }
  }

  lemma SameQueue(s: State, t: State, b: Buffer)
    requires s.queue == t.queue
    ensures Queued(t, b) == Queued(s, b)
  {}

  lemma SameHanded(s: State, t: State, b: Buffer)
    requires s.sends == t.sends && s.broadcasts == t.broadcasts
    ensures Handed(t, b) == Handed(s, b)
  {}

  lemma AccountedRead(s: State, b: Buffer)
    requires SlotShape(s) && Accounted(s, b) && Enabled(s, ReadSlot)
    ensures Accounted(Apply(s, ReadSlot), b)
  {
    hide OutsideStep, WaitingPc, SendingStep;
    var t := s.(pc := Freeing(s.slot), dangling := s.slot.Some?);
    assert Apply(s, ReadSlot) == t;
    assert !s.dangling && InHand(s.pc) == None && InHand(t.pc) == SlotBuffer(s.slot);
    hide Apply, Enabled, SlotShape, InHand, Queued, Handed;
    SameQueue(s, t, b);
    SameHanded(s, t, b);
  }

  ghost predicate SameBuffers(s: State, t: State) {
    t.freed == s.freed && t.queue == s.queue && t.slot == s.slot && t.dangling == s.dangling
    && t.sends == s.sends && t.broadcasts == s.broadcasts && InHand(t.pc) == InHand(s.pc)
  }

  lemma CopyKeepsBuffers(s: State, l: Label)
    requires Enabled(s, l) && (l.CopyClient? || l.CopyClients?)
    ensures SameBuffers(s, Apply(s, l))
  {
    hide OutsideStep, WaitingPc, EndingStep;
  }

  lemma TransmitKeepsBuffers(s: State, whole: bool)
    requires Enabled(s, Transmit(whole))
    ensures SameBuffers(s, Apply(s, Transmit(whole)))
  {
    assert s.pc.SendingOne? || s.pc.SendingAll?;
    if s.pc.SendingOne? {
      TransmitOneEffect(s, whole);
    } else {
      TransmitAllEffect(s, whole);
    }
    hide Apply, Enabled, TransmitOne, TransmitAll, SlotBuffer;
  }

  lemma AccountedHand(s: State, l: Label, b: Buffer)
    requires Accounted(s, b) && Enabled(s, l) && (l.Transmit? || l.CopyClient? || l.CopyClients?)
    ensures Accounted(Apply(s, l), b)
  {
    hide OutsideStep, WaitingPc, EndingStep;
    if l.Transmit? {
      TransmitKeepsBuffers(s, l.whole);
    } else {
      CopyKeepsBuffers(s, l);
    }
    hide Apply, Enabled, InHand;
  }

  lemma AccountedFree(s: State, l: Label, b: Buffer)
    requires Shape(s) && Accounted(s, b) && Enabled(s, l) && (l.Release? || l.FreeSlot?)
    ensures Accounted(Apply(s, l), b)
  {
    hide SlotBuffer, Shape, OutsideStep, WaitingPc;
    assert InHand(Apply(s, l).pc) == None;
  }

  lemma RestKeepsBuffers(s: State, l: Label)
    requires ControlShape(s) && Enabled(s, l)
    requires l.StopServer? || l.AddClient? || l.ClientChanges? || l.ReadStop? || l.LockMessage? || l.CheckQueue?
             || l.CheckSlot? || l.Wake? || l.CheckStop? || l.DrainEnd?
    ensures SameBuffers(s, Apply(s, l))
  {
    hide TransmitOne, TransmitAll, SlotBuffer, SendingStep;
  }

  lemma AccountedRest(s: State, l: Label, b: Buffer)
    requires Shape(s) && Accounted(s, b) && Enabled(s, l)
    requires l.StopServer? || l.AddClient? || l.ClientChanges? || l.ReadStop? || l.LockMessage? || l.CheckQueue?
             || l.CheckSlot? || l.Wake? || l.CheckStop? || l.DrainEnd?
    ensures Accounted(Apply(s, l), b)
  {
    hide SendingStep;
    RestKeepsBuffers(s, l);
    hide Apply, Enabled, InHand, Shape;
  }

  lemma {:induction false} AccountedHolds(ls: seq<Label>, b: Buffer)
    requires RunOk(ls) && !After(ls).late
    ensures Accounted(After(ls), b)
  {
    hide QueueShape, SlotShape, ControlShape, ShutdownShape, Accounted, Enabled, Apply;
    if ls == [] {
      NothingHanded(b);
    } else {
      var ls0, l := ls[..|ls| - 1], ls[|ls| - 1];
      LateStays(After(ls0), l);
      AccountedHolds(ls0, b);
      ShapeHolds(ls0);
      if l.SendTo? {
        AccountedSend(After(ls0), l.client, b);
      } else if l.Choose? || l.DrainOne? {
        AccountedPop(After(ls0), l, b);
      } else if l.SendToEveryone? {
        AccountedBroadcast(After(ls0), b);
      } else if l.TakeSlot? {
        AccountedTake(After(ls0), b);
      } else if l.ReadSlot? {
        AccountedRead(After(ls0), b);
      } else if l.Transmit? || l.CopyClient? || l.CopyClients? {
        AccountedHand(After(ls0), l, b);
      } else if l.Release? || l.FreeSlot? {
        AccountedFree(After(ls0), l, b);
      } else {
        AccountedRest(After(ls0), l, b);
      }
    }
  }

  lemma NothingHanded(b: Buffer)
    ensures Accounted(INITIAL, b)
  {}

  lemma LateStays(s: State, l: Label)
    requires Enabled(s, l)
    ensures s.late ==> Apply(s, l).late
    ensures s.missed ==> Apply(s, l).missed
  {
    hide TransmitOne, TransmitAll;
  }

  // ---------- the broadcast that comes too late ----------

  /** Frees of a buffer, the one the sender is committed to included. */
  function Frees(s: State, b: Buffer): nat {
    s.freed[b] + Count(InHand(s.pc), b)
  }

  lemma {:induction false} LateMeansTwice(ls: seq<Label>) returns (b: Buffer)
    requires RunOk(ls) && After(ls).late
    ensures 2 <= Frees(After(ls), b)
  {
    hide Shape, Apply, Enabled, Frees, Accounted;
    var ls0, l := ls[..|ls| - 1], ls[|ls| - 1];
    var s := After(ls0);
    ShapeHolds(ls0);
    if s.late {
      b := LateMeansTwice(ls0);
      FreesGrow(s, l, b);
    } else {
      LateNeedsDangling(s, l);
      b := OfBroadcast(s.slot.value);
      AccountedHolds(ls0, b);
      LateFrees(s, l);
    }
  }

  lemma FreesGrow(s: State, l: Label, b: Buffer)
    requires Shape(s) && Enabled(s, l) && s.late
    ensures Frees(s, b) <= Frees(Apply(s, l), b)
  {
    hide TransmitOne, TransmitAll;
  }

  lemma LateNeedsDangling(s: State, l: Label)
    requires Enabled(s, l) && Shape(s) && !s.late && Apply(s, l).late
    ensures l.SendToEveryone? && s.dangling && s.slot.Some?
  {
    hide TransmitOne, TransmitAll;
  }

  lemma LateFrees(s: State, l: Label)
    requires Shape(s) && Enabled(s, l) && l.SendToEveryone? && s.dangling && s.slot.Some?
    requires Accounted(s, OfBroadcast(s.slot.value))
    ensures 2 <= Frees(Apply(s, l), OfBroadcast(s.slot.value))
  {
    hide WaitingPc, EndingStep, SendingStep;
  }

  /** The sender has read a slot that was not null for the last time. */
  ghost predicate ReadsFull(ls: seq<Label>) {
    exists i :: 0 <= i < |ls| && ls[i].ReadSlot? && RunOk(ls[..i]) && After(ls[..i]).slot.Some?
  }

  /** A sendToEveryone came after that. */
  ghost predicate LateBroadcast(ls: seq<Label>) {
    exists i, j :: 0 <= i < j < |ls| && ls[i].ReadSlot? && RunOk(ls[..i]) && After(ls[..i]).slot.Some?
        && ls[j].SendToEveryone?
  }

  predicate Drains(ls: seq<Label>) {
    exists i :: 0 <= i < |ls| && ls[i].DrainEnd?
  }

  predicate Reads(ls: seq<Label>) {
    exists i :: 0 <= i < |ls| && ls[i].ReadSlot?
  }

  predicate SendAfterDrain(ls: seq<Label>) {
    exists i, j :: 0 <= i < j < |ls| && ls[i].DrainEnd? && ls[j].SendTo?
  }

  predicate BroadcastAfterRead(ls: seq<Label>) {
    exists i, j :: 0 <= i < j < |ls| && ls[i].ReadSlot? && ls[j].SendToEveryone?
  }

  /** A sendTo came after the drain, or a sendToEveryone after the slot had been read for the last time. */
  predicate MissedCall(ls: seq<Label>) {
    SendAfterDrain(ls) || BroadcastAfterRead(ls)
  }

  lemma SamePrefixes(ls: seq<Label>, l: Label)
    ensures forall i :: 0 <= i <= |ls| ==> (ls + [l])[..i] == ls[..i]
    ensures ls[..|ls|] == ls && (ls + [l])[|ls|] == l
    ensures forall i :: 0 <= i < |ls| ==> (ls + [l])[i] == ls[i]
  {}

  lemma OneMoreRead(ls: seq<Label>, l: Label)
    requires RunOk(ls)
    ensures ReadsFull(ls + [l]) <==> ReadsFull(ls) || (l.ReadSlot? && After(ls).slot.Some?)
  {
    hide RunOk, After;
    SamePrefixes(ls, l);
    if ReadsFull(ls) {
      var i :| 0 <= i < |ls| && ls[i].ReadSlot? && RunOk(ls[..i]) && After(ls[..i]).slot.Some?;
      assert (ls + [l])[i].ReadSlot?;
    }
  }

  lemma OneMoreBroadcast(ls: seq<Label>, l: Label)
    requires RunOk(ls)
    ensures LateBroadcast(ls + [l]) <==> LateBroadcast(ls) || (l.SendToEveryone? && ReadsFull(ls))
  {
    hide RunOk, After;
    SamePrefixes(ls, l);
    if LateBroadcast(ls) {
      var i, j :| 0 <= i < j < |ls| && ls[i].ReadSlot? && RunOk(ls[..i]) && After(ls[..i]).slot.Some?
          && ls[j].SendToEveryone?;
      assert (ls + [l])[i].ReadSlot? && (ls + [l])[j].SendToEveryone?;
    }
    if l.SendToEveryone? && ReadsFull(ls) {
      var i :| 0 <= i < |ls| && ls[i].ReadSlot? && RunOk(ls[..i]) && After(ls[..i]).slot.Some?;
      assert (ls + [l])[i].ReadSlot? && (ls + [l])[|ls|].SendToEveryone?;
    }
  }

  lemma OneMoreCall(ls: seq<Label>, l: Label)
    ensures Drains(ls + [l]) <==> Drains(ls) || l.DrainEnd?
    ensures Reads(ls + [l]) <==> Reads(ls) || l.ReadSlot?
    ensures SendAfterDrain(ls + [l]) <==> SendAfterDrain(ls) || (l.SendTo? && Drains(ls))
    ensures BroadcastAfterRead(ls + [l]) <==> BroadcastAfterRead(ls) || (l.SendToEveryone? && Reads(ls))
  {
    var ms := ls + [l];
    assert forall i :: 0 <= i < |ls| ==> ms[i] == ls[i];
    assert ms[|ls|] == l;
  }

  /** What the flags record about the run so far. */
  ghost predicate FlagsTell(ls: seq<Label>)
    requires RunOk(ls)
  {
    var s := After(ls);
    && (AfterDrain(s.pc) <==> Drains(ls))
    && (s.pc.Freeing? || s.pc.Done? <==> Reads(ls))
    && (s.dangling || s.late <==> ReadsFull(ls))
    && (s.late <==> LateBroadcast(ls))
    && (s.missed <==> MissedCall(ls))
  }

  ghost predicate FlagsMove(s: State, l: Label, t: State) {
    && (AfterDrain(t.pc) <==> AfterDrain(s.pc) || l.DrainEnd?)
    && (t.pc.Freeing? || t.pc.Done? <==> s.pc.Freeing? || s.pc.Done? || l.ReadSlot?)
    && (t.late <==> s.late || (l.SendToEveryone? && s.dangling))
    && (t.missed
        <==> s.missed || (l.SendTo? && AfterDrain(s.pc)) || (l.SendToEveryone? && (s.pc.Freeing? || s.pc.Done?)))
  }

  lemma WaitingFlags(s: State, l: Label)
    requires Enabled(s, l) && IsWaiting(l)
    ensures FlagsMove(s, l, Apply(s, l))
  {
    hide InHand, SlotBuffer, TransmitOne, TransmitAll, OutsideStep, WaitingPc, EndingStep, SendingStep;
  }

  lemma TransmitFlags(s: State, whole: bool)
    requires Enabled(s, Transmit(whole))
    ensures FlagsMove(s, Transmit(whole), Apply(s, Transmit(whole)))
  {
    assert s.pc.SendingOne? || s.pc.SendingAll?;
    if s.pc.SendingOne? {
      TransmitOneEffect(s, whole);
    } else {
      TransmitAllEffect(s, whole);
    }
    hide Apply, Enabled, TransmitOne, TransmitAll;
  }

  lemma SendingFlags(s: State, l: Label)
    requires Enabled(s, l) && IsSending(l) && !l.Transmit?
    ensures FlagsMove(s, l, Apply(s, l))
  {
    hide InHand, SlotBuffer, TransmitOne, TransmitAll, OutsideStep, WaitingPc, EndingStep;
    match l
    case Choose =>
    case TakeSlot =>
    case CopyClient =>
    case CopyClients =>
    case Release =>
  }

  lemma OtherFlags(s: State, l: Label)
    requires Enabled(s, l) && (IsOutside(l) || IsEnding(l))
    ensures FlagsMove(s, l, Apply(s, l))
  {
    hide InHand, SlotBuffer, TransmitOne, TransmitAll;
  }

  lemma DanglingStep(s: State, l: Label)
    requires SlotShape(s) && Enabled(s, l)
    ensures var t := Apply(s, l);
            t.dangling <==> if l.SendToEveryone? then false else s.dangling || (l.ReadSlot? && s.slot.Some?)
  {
    hide InHand, SlotBuffer, TransmitOne, TransmitAll;
  }

  lemma FlagsGoOn(ls: seq<Label>, l: Label)
    requires RunOk(ls) && Enabled(After(ls), l) && FlagsTell(ls) && SlotShape(After(ls))
    ensures RunOk(ls + [l]) && FlagsTell(ls + [l])
  {
    RunExtends(ls, l);
    hide RunOk, After, Apply, Enabled, AfterDrain, Drains, Reads, ReadsFull, LateBroadcast, SendAfterDrain;
    hide BroadcastAfterRead;
    OneMoreRead(ls, l);
    OneMoreBroadcast(ls, l);
    OneMoreCall(ls, l);
    if IsWaiting(l) {
      WaitingFlags(After(ls), l);
    } else if l.Transmit? {
      TransmitFlags(After(ls), l.whole);
    } else if IsSending(l) {
      SendingFlags(After(ls), l);
    } else {
      OtherFlags(After(ls), l);
    }
    DanglingStep(After(ls), l);
    hide SlotShape;
  }

  lemma {:induction false} FlagsTellAlways(ls: seq<Label>)
    requires RunOk(ls)
    ensures FlagsTell(ls)
  {
    hide Apply, Enabled, FlagsTell, SlotShape;
    if ls == [] {
      assert FlagsTell([]) by { NothingToTell(); }
    } else {
      var ls0, l := ls[..|ls| - 1], ls[|ls| - 1];
      assert ls == ls0 + [l];
      FlagsTellAlways(ls0);
      SlotShapeHolds(ls0);
      FlagsGoOn(ls0, l);
    }
  }

  lemma SlotShapeHolds(ls: seq<Label>)
    requires RunOk(ls)
    ensures SlotShape(After(ls))
  {
    ShapeHolds(ls);
    hide After, QueueShape, ControlShape, ShutdownShape;
  }

  lemma NothingToTell()
    ensures FlagsTell([])
  {}

  /** As long as no broadcast has come after the last reading of a full slot, every buffer handed over is in exactly
      one place, and a buffer not handed over in none. */
  lemma EveryBufferInOnePlace(ls: seq<Label>, b: Buffer)
    requires RunOk(ls) && !LateBroadcast(ls)
    ensures Accounted(After(ls), b)
  {
    FlagsTellAlways(ls);
    AccountedHolds(ls, b);
    hide Accounted;
  }

  /** No double free, and the buffer the sender reads or is about to free has not been freed. */
  lemma NoDoubleFree(ls: seq<Label>, b: Buffer)
    requires RunOk(ls) && !LateBroadcast(ls)
    ensures After(ls).freed[b] <= 1
    ensures InHand(After(ls).pc) == Some(b) ==> b !in After(ls).freed
  {
    EveryBufferInOnePlace(ls, b);
    hide After, RunOk, InHand;
  }

  /** When the sender thread has ended, some buffer has been freed twice exactly when a broadcast arrived after
      the sender had read the slot for the last time and found one there. */
  lemma DoubleFreeIff(ls: seq<Label>)
    requires RunOk(ls) && After(ls).pc.Done?
    ensures LateBroadcast(ls) <==> exists b :: 2 <= After(ls).freed[b]
  {
    FlagsTellAlways(ls);
    if LateBroadcast(ls) {
      var b := LateMeansTwice(ls);
      assert 2 <= After(ls).freed[b];
    } else if exists b :: 2 <= After(ls).freed[b] {
      var b :| 2 <= After(ls).freed[b];
      NoDoubleFree(ls, b);
    }
  }

  lemma RunExtends(ls: seq<Label>, l: Label)
    requires RunOk(ls) && Enabled(After(ls), l)
    ensures RunOk(ls + [l]) && After(ls + [l]) == Apply(After(ls), l)
  {
    hide Apply, Enabled;
    assert (ls + [l])[..|ls|] == ls;
  }

  lemma ToldToStop() returns (ls: seq<Label>)
    ensures RunOk(ls) && After(ls) == INITIAL.(slot := Some(0), broadcasts := 1, stopped := true)
  {
    hide RunOk, After, WaitingPc, SendingStep, EndingStep;
    EmptyRun();
    RunExtends([], SendToEveryone);
    ls := [] + [SendToEveryone];
    assert After(ls) == INITIAL.(slot := Some(0), broadcasts := 1);
    RunExtends(ls, StopServer);
    ls := ls + [StopServer];
  }

  lemma StoppedUnsent() returns (ls: seq<Label>)
    ensures RunOk(ls) && After(ls) == INITIAL.(slot := Some(0), broadcasts := 1, stopped := true, pc := Drained)
  {
    hide RunOk, After, OutsideStep, SendingStep;
    ls := ToldToStop();
    RunExtends(ls, ReadStop);
    ls := ls + [ReadStop];
    assert After(ls) == INITIAL.(slot := Some(0), broadcasts := 1, stopped := true, pc := Draining);
    RunExtends(ls, DrainEnd);
    ls := ls + [DrainEnd];
  }

  lemma StoppedFreed() returns (ls: seq<Label>)
    ensures RunOk(ls)
    ensures var s := After(ls);
            s.pc == Done && s.slot == Some(0) && s.freed == multiset{OfBroadcast(0)}
  {
    hide RunOk, After, OutsideStep, SendingStep, WaitingPc;
    ls := StoppedUnsent();
    RunExtends(ls, ReadSlot);
    ls := ls + [ReadSlot];
    assert After(ls).pc == Freeing(Some(0)) && After(ls).slot == Some(0) && After(ls).freed == multiset{};
    RunExtends(ls, FreeSlot);
    ls := ls + [FreeSlot];
  }

  /** A run in which that happens: one broadcast is never sent, the server stops, another arrives. */
  lemma LateRunFreesTwice() returns (ls: seq<Label>)
    ensures RunOk(ls) && After(ls).pc.Done? && After(ls).freed[OfBroadcast(0)] == 2
  {
    hide RunOk, After;
    ls := StoppedFreed();
    RunExtends(ls, SendToEveryone);
    ls := ls + [SendToEveryone];
  }

  lemma EmptyRun()
    ensures RunOk([]) && After([]) == INITIAL
  {}

  // ---------- after the drain ----------

  /** Everything handed over has been freed, exactly once, and nothing else has. */
  ghost predicate AllFreedOnce(s: State) {
    forall b :: s.freed[b] == if Handed(s, b) then 1 else 0
  }

  lemma StillOwned(s: State, b: Buffer)
    requires Accounted(s, b) && (Queued(s, b) > 0 || InSlot(s, b))
    ensures s.freed[b] == 0 && Handed(s, b)
  {
    hide Queued, InHand, Handed;
  }

  lemma NothingLeft(s: State, b: Buffer)
    requires Accounted(s, b) && s.pc.Done? && s.queue == [] && (s.slot.None? || s.dangling)
    ensures s.freed[b] == if Handed(s, b) then 1 else 0
  {
    hide Handed;
  }

  lemma MissedIsLeft(s: State) returns (b: Buffer)
    requires Shape(s) && s.missed && !s.late && s.pc.Done?
    ensures Queued(s, b) > 0 || InSlot(s, b)
  {
    hide SlotShape, ControlShape;
    b := if s.queue != [] then OfSend(|s.sends| - 1) else OfBroadcast(s.slot.value);
    if s.queue != [] {
      assert s.queue[|s.queue| - 1] == |s.sends| - 1;
    }
  }

  /** When the sender thread has ended, every buffer has been freed exactly once precisely if no sendTo came after
      the drain and no sendToEveryone after the slot was read for the last time. */
  lemma DrainFreesAllIff(ls: seq<Label>)
    requires RunOk(ls) && After(ls).pc.Done?
    ensures AllFreedOnce(After(ls)) <==> !MissedCall(ls)
  {
    var s := After(ls);
    ShapeHolds(ls);
    FlagsTellAlways(ls);
    assert s.missed <==> MissedCall(ls);
    assert s.late ==> s.missed;
    assert !s.missed ==> s.queue == [] && (s.slot.None? || s.dangling);
    hide Handed, MissedCall, LateBroadcast, Accounted, Queued, InSlot, RunOk, After, QueueShape, SlotShape;
    hide ControlShape, ShutdownShape;
    if s.late {
      var b := LateMeansTwice(ls);
      assert 2 <= s.freed[b];
    } else if s.missed {
      var b := MissedIsLeft(s);
      AccountedHolds(ls, b);
      StillOwned(s, b);
    } else {
      forall b ensures s.freed[b] == if Handed(s, b) then 1 else 0 {
        AccountedHolds(ls, b);
        NothingLeft(s, b);
      }
    }
  }

  /** No producer calls the server once stopServer has begun, which is what the host arranges. */
  predicate QuietAfterStop(ls: seq<Label>) {
    forall i, j :: 0 <= i < j < |ls| && ls[i].StopServer? ==> !ls[j].SendTo? && !ls[j].SendToEveryone?
  }

  lemma {:induction false} StopComesFirst(ls: seq<Label>, i: nat)
    requires RunOk(ls) && i < |ls| && (ls[i].DrainEnd? || ls[i].ReadSlot?)
    ensures exists k :: 0 <= k < i && ls[k].StopServer?
  {
    hide Apply, Enabled, Shape;
    if i == |ls| - 1 {
      ShapeHolds(ls[..i]);
      assert After(ls[..i]).stopped by { DrainerIsStopped(After(ls[..i]), ls[i]); }
      StoppedByStop(ls[..i]);
    } else {
      StopComesFirst(ls[..|ls| - 1], i);
    }
  }

  lemma DrainerIsStopped(s: State, l: Label)
    requires Shape(s) && Enabled(s, l) && (l.DrainEnd? || l.ReadSlot?)
    ensures s.stopped
  {}

  lemma StopStep(s: State, l: Label)
    requires Enabled(s, l)
    ensures Apply(s, l).stopped ==> s.stopped || l.StopServer?
  {
    hide TransmitOne, TransmitAll;
  }

  lemma {:induction false} StoppedByStop(ls: seq<Label>)
    requires RunOk(ls) && After(ls).stopped
    ensures exists k :: 0 <= k < |ls| && ls[k].StopServer?
  {
    hide Apply, Enabled;
    var ls0, l := ls[..|ls| - 1], ls[|ls| - 1];
    StopStep(After(ls0), l);
    if l.StopServer? {
      assert ls[|ls| - 1].StopServer?;
    } else {
      StoppedByStop(ls0);
      var k :| 0 <= k < |ls0| && ls0[k].StopServer?;
      assert ls[k].StopServer?;
    }
  }

  lemma QuietMissesNothing(ls: seq<Label>)
    requires RunOk(ls) && QuietAfterStop(ls)
    ensures !MissedCall(ls)
  {
    hide RunOk, After;
    forall i, j | 0 <= i < j < |ls| && (ls[i].DrainEnd? || ls[i].ReadSlot?)
      ensures !ls[j].SendTo? && !ls[j].SendToEveryone?
    {
      StopComesFirst(ls, i);
      var k :| 0 <= k < i && ls[k].StopServer?;
      assert k < j;
    }
  }

  /** With quiet producers the drain leaves nothing behind and frees nothing twice. */
  lemma QuietShutdownFreesAll(ls: seq<Label>)
    requires RunOk(ls) && QuietAfterStop(ls) && After(ls).pc.Done?
    ensures AllFreedOnce(After(ls))
  {
    QuietMissesNothing(ls);
    DrainFreesAllIff(ls);
  }

  // ---------- the order in which frames reach a client ----------

  /** The sendTo messages delivered to client c, by call number, in delivery order. */
  function IndividualTo(ds: seq<Delivery>, c: nat): seq<nat> {
    if ds == [] then []
    else
      var d := ds[|ds| - 1];
      IndividualTo(ds[..|ds| - 1], c) + (if d.client == c && d.what.OfSend? then [d.what.n] else [])
  }

  function BroadcastsTo(ds: seq<Delivery>, c: nat): seq<nat> {
    if ds == [] then []
    else
      var d := ds[|ds| - 1];
      BroadcastsTo(ds[..|ds| - 1], c) + (if d.client == c && d.what.OfBroadcast? then [d.what.k] else [])
  }

  /** The calls addressed to client c among the first `upto`, in call order. */
  function CallsFor(sends: seq<nat>, upto: nat, c: nat): seq<nat>
    requires upto <= |sends|
  {
    if upto == 0 then [] else CallsFor(sends, upto - 1, c) + (if sends[upto - 1] == c then [upto - 1] else [])
  }

  lemma {:induction false} CallsForExtends(sends: seq<nat>, more: nat, upto: nat, c: nat)
    requires upto <= |sends|
    ensures CallsFor(sends + [more], upto, c) == CallsFor(sends, upto, c)
  {
    if upto > 0 {
      CallsForExtends(sends, more, upto - 1, c);
    }
  }

  lemma {:induction false} NobodyThere(s: State, upto: nat, c: nat)
    requires QueueShape(s) && upto <= |s.sends| && |s.clients| <= c
    ensures CallsFor(s.sends, upto, c) == []
  {
    if upto > 0 {
      NobodyThere(s, upto - 1, c);
    }
  }

  predicate Sending(pc: Pc) {
    pc.PoppedOne? || pc.SendingOne?
  }

  predicate IsRunning(s: State, c: nat) {
    c < |s.clients| && s.clients[c].Running?
  }

  /** How far the sender has come through the sendTo calls. */
  predicate Progress(s: State) {
    && s.handled <= |s.sends| - |s.queue|
    && (!AfterDrain(s.pc) && !s.pc.Draining? ==> s.handled + (if Sending(s.pc) then 1 else 0) == |s.sends| - |s.queue|)
    && (s.pc.SendingOne? ==> s.pc.n < |s.sends| && (!s.pc.status.Running? ==> !IsRunning(s, s.sends[s.pc.n])))
    && (forall i :: 0 <= i < |s.deliveries| ==> s.deliveries[i].client < |s.clients|)
  }

  predicate UpToDate(s: State, c: nat) {
    IsRunning(s, c) || (s.pc.SendingOne? && s.pc.status.Running? && s.pc.n < |s.sends| && s.sends[s.pc.n] == c)
  }

  /** What client c has received: every handled call while it runs, a prefix of them ever after. */
  predicate InOrder(s: State, c: nat)
    requires s.handled <= |s.sends|
  {
    && IndividualTo(s.deliveries, c) <= CallsFor(s.sends, s.handled, c)
    && (UpToDate(s, c) ==> IndividualTo(s.deliveries, c) == CallsFor(s.sends, s.handled, c))
  }

  predicate Increasing(ks: seq<nat>, bound: nat) {
    && (forall i, j :: 0 <= i < j < |ks| ==> ks[i] < ks[j])
    && (forall i :: 0 <= i < |ks| ==> ks[i] < bound)
  }

  /** The broadcasts client c may still receive are those from this call on. */
  function NextBroadcast(s: State, c: nat): nat {
    if s.pc.PoppedAll? then s.pc.k
    else if s.pc.SendingAll? then (if c < s.pc.i then s.pc.k + 1 else s.pc.k)
    else if s.slot.Some? then s.slot.value
    else s.broadcasts
  }

  lemma ProgressQueue(s: State, l: Label)
    requires Progress(s) && QueueShape(s) && Enabled(s, l) && (l.SendTo? || l.Choose? || l.DrainOne? || l.CopyClient?)
    ensures Progress(Apply(s, l))
  {
    hide InHand, SlotBuffer, TransmitOne, TransmitAll, WaitingPc;
  }

  lemma ProgressClients(s: State, l: Label)
    requires Progress(s) && QueueShape(s) && Enabled(s, l) && (l.AddClient? || l.ClientChanges?)
    ensures Progress(Apply(s, l))
  {
    hide InHand, SlotBuffer, TransmitOne, TransmitAll, WaitingPc, EndingStep, SendingStep;
  }

  lemma ProgressWaiting(s: State, l: Label)
    requires Progress(s) && Enabled(s, l) && IsWaiting(l)
    ensures Progress(Apply(s, l))
  {
    hide InHand, SlotBuffer, TransmitOne, TransmitAll, OutsideStep, WaitingPc, EndingStep, SendingStep;
  }

  lemma ProgressRest(s: State, l: Label)
    requires Progress(s) && Enabled(s, l) && !IsWaiting(l)
    requires !(l.SendTo? || l.Choose? || l.DrainOne? || l.CopyClient? || l.AddClient? || l.ClientChanges?
               || l.Transmit?)
    ensures Progress(Apply(s, l))
  {
    hide InHand, SlotBuffer, TransmitOne, TransmitAll;
  }

  lemma ProgressStep(s: State, l: Label)
    requires Progress(s) && QueueShape(s) && Enabled(s, l) && !l.Transmit?
    ensures Progress(Apply(s, l))
  {
    hide Progress, QueueShape, Enabled, Apply;
    if l.SendTo? || l.Choose? || l.DrainOne? || l.CopyClient? {
      ProgressQueue(s, l);
    } else if l.AddClient? || l.ClientChanges? {
      ProgressClients(s, l);
    } else if IsWaiting(l) {
      ProgressWaiting(s, l);
    } else {
      ProgressRest(s, l);
    }
  }

  lemma ProgressTransmit(s: State, l: Label)
    requires Progress(s) && QueueShape(s) && Enabled(s, l) && l.Transmit?
    ensures Progress(Apply(s, l))
  {
    assert s.pc.SendingOne? || s.pc.SendingAll?;
    if s.pc.SendingOne? {
      TransmitOneEffect(s, l.whole);
    } else {
      TransmitAllEffect(s, l.whole);
    }
    hide Apply, Enabled, TransmitOne, TransmitAll;
  }

  lemma InOrderSend(s: State, client: nat, c: nat)
    requires Progress(s) && InOrder(s, c) && Enabled(s, SendTo(client))
    ensures Apply(s, SendTo(client)).handled <= |Apply(s, SendTo(client)).sends| && InOrder(Apply(s, SendTo(client)), c)
  {
    hide WaitingPc, EndingStep, SendingStep;
    CallsForExtends(s.sends, client, s.handled, c);
  }

  lemma InOrderAddClient(s: State, c: nat)
    requires Progress(s) && QueueShape(s) && InOrder(s, c)
    ensures InOrder(Apply(s, AddClient), c)
  {
    hide WaitingPc, EndingStep, SendingStep;
    if c == |s.clients| {
      NobodyThere(s, s.handled, c);
    }
  }

  lemma IndividualAppend(ds: seq<Delivery>, d: Delivery, c: nat)
    ensures IndividualTo(ds + [d], c) == IndividualTo(ds, c)
        + (if d.client == c && d.what.OfSend? then [d.what.n] else [])
  {
    assert (ds + [d])[..|ds|] == ds;
  }

  lemma InOrderTransmitOne(s: State, whole: bool, c: nat)
    requires Progress(s) && QueueShape(s) && InOrder(s, c) && Enabled(s, Transmit(whole)) && s.pc.SendingOne?
    ensures var t := Apply(s, Transmit(whole));
            t.handled <= |t.sends| && InOrder(t, c)
  {
    TransmitOneEffect(s, whole);
    var t := Apply(s, Transmit(whole));
    var to := s.sends[s.pc.n];
    assert t.handled == s.handled + 1 && s.pc.n == s.handled && t.sends == s.sends && t.pc.SentOne?;
    IndividualAppend(s.deliveries, Delivery(to, OfSend(s.pc.n)), c);
    assert CallsFor(s.sends, t.handled, c) == CallsFor(s.sends, s.handled, c) + (if to == c then [s.handled] else []);
    hide Apply, Enabled, TransmitOne, QueueShape, IndividualTo, CallsFor;
  }

  lemma InOrderTransmitAll(s: State, whole: bool, c: nat)
    requires Progress(s) && InOrder(s, c) && Enabled(s, Transmit(whole)) && s.pc.SendingAll?
    ensures InOrder(Apply(s, Transmit(whole)), c)
  {
    TransmitAllEffect(s, whole);
    var t := Apply(s, Transmit(whole));
    assert t.handled == s.handled && t.sends == s.sends && t.pc.SendingAll?;
    IndividualAppend(s.deliveries, Delivery(s.pc.i, OfBroadcast(s.pc.k)), c);
    hide Apply, Enabled, TransmitAll, IndividualTo, CallsFor;
  }

  ghost predicate SameDelivered(s: State, t: State, c: nat) {
    t.deliveries == s.deliveries && t.sends == s.sends && t.handled == s.handled && (UpToDate(t, c) ==> UpToDate(s, c))
  }

  lemma ClientsDeliverNothing(s: State, l: Label, c: nat)
    requires Enabled(s, l) && (l.CopyClient? || l.ClientChanges?)
    ensures SameDelivered(s, Apply(s, l), c)
  {
    hide InHand, SlotBuffer, TransmitOne, TransmitAll, WaitingPc, EndingStep;
  }

  lemma DrainDeliversNothing(s: State, l: Label, c: nat)
    requires Enabled(s, l)
    requires l.SendToEveryone? || l.StopServer? || l.DrainOne? || l.DrainEnd? || l.ReadSlot? || l.FreeSlot?
          || l.Release?
    ensures SameDelivered(s, Apply(s, l), c)
  {
    hide InHand, SlotBuffer, TransmitOne, TransmitAll, WaitingPc;
  }

  lemma WaitingDeliversNothing(s: State, l: Label, c: nat)
    requires Enabled(s, l) && IsWaiting(l)
    ensures SameDelivered(s, Apply(s, l), c)
  {
    hide InHand, SlotBuffer, TransmitOne, TransmitAll, OutsideStep, WaitingPc, EndingStep, SendingStep;
  }

  lemma TakingDeliversNothing(s: State, l: Label, c: nat)
    requires Enabled(s, l) && (l.Choose? || l.TakeSlot? || l.CopyClients?)
    ensures SameDelivered(s, Apply(s, l), c)
  {
    hide InHand, SlotBuffer, TransmitOne, TransmitAll, OutsideStep, WaitingPc, EndingStep;
  }

  lemma InOrderRest(s: State, l: Label, c: nat)
    requires Progress(s) && InOrder(s, c) && Enabled(s, l) && !l.SendTo? && !l.AddClient? && !l.Transmit?
    ensures Apply(s, l).handled <= |Apply(s, l).sends| && InOrder(Apply(s, l), c)
  {
    hide Apply, Enabled, UpToDate, CallsFor, IndividualTo;
    if l.CopyClient? || l.ClientChanges? {
      ClientsDeliverNothing(s, l, c);
    } else if l.SendToEveryone? || l.StopServer? || l.DrainOne? || l.DrainEnd? || l.ReadSlot? || l.FreeSlot?
        || l.Release? {
      DrainDeliversNothing(s, l, c);
    } else if IsWaiting(l) {
      WaitingDeliversNothing(s, l, c);
    } else {
      TakingDeliversNothing(s, l, c);
    }
  }

  lemma InOrderStep(s: State, l: Label, c: nat)
    requires Progress(s) && QueueShape(s) && InOrder(s, c) && Enabled(s, l)
    ensures Progress(Apply(s, l)) && InOrder(Apply(s, l), c)
  {
    if l.Transmit? {
      ProgressTransmit(s, l);
      if s.pc.SendingOne? {
        InOrderTransmitOne(s, l.whole, c);
      } else {
        InOrderTransmitAll(s, l.whole, c);
      }
    } else {
      ProgressStep(s, l);
      if l.SendTo? {
        InOrderSend(s, l.client, c);
      } else if l.AddClient? {
        InOrderAddClient(s, c);
      } else {
        InOrderRest(s, l, c);
      }
    }
    hide InOrder, Apply, QueueShape;
  }

  /** sendTo messages reach each client in call order: a running client has received every handled one addressed
      to it, any other client a prefix of them, and none twice. */
  lemma {:induction false} SendsArriveInOrder(ls: seq<Label>, c: nat)
    requires RunOk(ls)
    ensures Progress(After(ls)) && InOrder(After(ls), c)
  {
    hide Apply, Enabled;
    if ls != [] {
      var ls0, l := ls[..|ls| - 1], ls[|ls| - 1];
      SendsArriveInOrder(ls0, c);
      ShapeHolds(ls0);
      hide Progress, InOrder;
      InOrderStep(After(ls0), l, c);
    }
  }

  lemma BroadcastWaiting(s: State, l: Label, c: nat)
    requires Enabled(s, l) && IsWaiting(l)
    requires Increasing(BroadcastsTo(s.deliveries, c), NextBroadcast(s, c))
    ensures Increasing(BroadcastsTo(Apply(s, l).deliveries, c), NextBroadcast(Apply(s, l), c))
  {
    hide InHand, SlotBuffer, TransmitOne, TransmitAll, OutsideStep, WaitingPc, EndingStep, SendingStep, BroadcastsTo;
    hide Increasing;
  }

  lemma BroadcastStep(s: State, l: Label, c: nat)
    requires Shape(s) && Enabled(s, l) && !IsWaiting(l) && !l.Transmit?
    requires Increasing(BroadcastsTo(s.deliveries, c), NextBroadcast(s, c))
    ensures Increasing(BroadcastsTo(Apply(s, l).deliveries, c), NextBroadcast(Apply(s, l), c))
  {
    hide InHand, SlotBuffer, TransmitOne, TransmitAll, WaitingPc, BroadcastsTo, QueueShape, ControlShape;
  }

  lemma BroadcastAppend(ds: seq<Delivery>, d: Delivery, c: nat)
    ensures BroadcastsTo(ds + [d], c) == BroadcastsTo(ds, c)
        + (if d.client == c && d.what.OfBroadcast? then [d.what.k] else [])
  {
    assert (ds + [d])[..|ds|] == ds;
  }

  lemma BroadcastTransmitOne(s: State, whole: bool, c: nat)
    requires Enabled(s, Transmit(whole)) && s.pc.SendingOne?
    requires Increasing(BroadcastsTo(s.deliveries, c), NextBroadcast(s, c))
    ensures var t := Apply(s, Transmit(whole));
            Increasing(BroadcastsTo(t.deliveries, c), NextBroadcast(t, c))
  {
    TransmitOneEffect(s, whole);
    var t := Apply(s, Transmit(whole));
    assert NextBroadcast(t, c) == NextBroadcast(s, c);
    BroadcastAppend(s.deliveries, Delivery(s.sends[s.pc.n], OfSend(s.pc.n)), c);
    hide Apply, Enabled, TransmitOne, BroadcastsTo, Increasing, NextBroadcast;
  }

  lemma IncreasingGrows(ks: seq<nat>, k: nat)
    requires Increasing(ks, k)
    ensures Increasing(ks + [k], k + 1) && Increasing(ks, k + 1) && ks + [] == ks
  {}

  lemma BroadcastTransmitAll(s: State, whole: bool, c: nat)
    requires Enabled(s, Transmit(whole)) && s.pc.SendingAll?
    requires Increasing(BroadcastsTo(s.deliveries, c), NextBroadcast(s, c))
    ensures var t := Apply(s, Transmit(whole));
            Increasing(BroadcastsTo(t.deliveries, c), NextBroadcast(t, c))
  {
    TransmitAllEffect(s, whole);
    var t := Apply(s, Transmit(whole));
    var k, i, ks := s.pc.k, s.pc.i, BroadcastsTo(s.deliveries, c);
    assert NextBroadcast(s, c) == if c < i then k + 1 else k;
    assert NextBroadcast(t, c) == if c < i + 1 then k + 1 else k;
    BroadcastAppend(s.deliveries, Delivery(i, OfBroadcast(k)), c);
    assert ks + [] == ks;
    hide Apply, Enabled, TransmitAll, BroadcastsTo, NextBroadcast, Increasing;
    if i == c {
      IncreasingGrows(ks, k);
    }
  }

  lemma BroadcastTransmit(s: State, l: Label, c: nat)
    requires Enabled(s, l) && l.Transmit?
    requires Increasing(BroadcastsTo(s.deliveries, c), NextBroadcast(s, c))
    ensures Increasing(BroadcastsTo(Apply(s, l).deliveries, c), NextBroadcast(Apply(s, l), c))
  {
    assert s.pc.SendingOne? || s.pc.SendingAll?;
    hide *;
    if s.pc.SendingOne? {
      BroadcastTransmitOne(s, l.whole, c);
    } else {
      BroadcastTransmitAll(s, l.whole, c);
    }
  }

  /** The broadcasts a client receives are an in-order selection of the sendToEveryone calls, none of them twice. */
  lemma {:induction false} BroadcastsArriveInOrder(ls: seq<Label>, c: nat)
    requires RunOk(ls)
    ensures Increasing(BroadcastsTo(After(ls).deliveries, c), NextBroadcast(After(ls), c))
    ensures NextBroadcast(After(ls), c) <= After(ls).broadcasts
  {
    hide Apply, Enabled, BroadcastsTo, Increasing;
    ShapeHolds(ls);
    if ls == [] {
      NothingDelivered(c);
    } else {
      var ls0, l := ls[..|ls| - 1], ls[|ls| - 1];
      BroadcastsArriveInOrder(ls0, c);
      ShapeHolds(ls0);
      if l.Transmit? {
        BroadcastTransmit(After(ls0), l, c);
      } else if IsWaiting(l) {
        BroadcastWaiting(After(ls0), l, c);
      } else {
        BroadcastStep(After(ls0), l, c);
      }
    }
  }

  lemma NothingDelivered(c: nat)
    ensures Increasing(BroadcastsTo([], c), 0)
  {}
}
