/** What each thread of the host and the server locks, and that together they never deadlock
    (Host/game.cpp, Server/server.c, server_send.c, server_receive.c, server_queue.c). */
module ServerLocks {
  import opened LockOrder

  // ---------- building blocks ----------

  /** One locked region: a queue operation, a client-table access, a change of the game. */
  function Once(l: Lock): seq<Op> {
    [Acquire(l), Use(l), Release(l)]
  }

  function Repeat(ops: seq<Op>, n: nat): seq<Op> {
    if n == 0 then [] else ops + Repeat(ops, n - 1)
  }

  /** sendTo pushes to the outgoing queue; the signal after it takes no lock. */
  function SendTo(): seq<Op> {
    Once(Outgoing)
  }

  function SendToEveryone(): seq<Op> {
    Once(Messages)
  }

  // ---------- the host's threads ----------

  datatype Incoming = Empty | NewConnection | LostConnection | Ping | OtherMessage

  function HandleMessage(m: Incoming): seq<Op> {
    match m
    case Empty => []
    case NewConnection => [Acquire(Update)] + ([Use(Update)] + SendTo()) + [Release(Update)] + SendTo()
    case LostConnection => Once(Update)
    case Ping => [Acquire(Update)] + (SendTo() + [Use(Update)]) + [Release(Update)]
    case OtherMessage => Once(Update)
  }

  /** take: the emptiness test and the pop lock the queue again while it is locked. */
  function Take(waits: nat, timedOut: bool): seq<Op> {
    [Acquire(Received)] + Repeat(Once(Received) + [Wait(Received)], waits)
    + (if timedOut then [] else Once(Received) + Once(Received)) + [Release(Received)]
  }

  datatype Taking = Taking(waits: nat, timedOut: bool, message: Incoming)

  function ReceiveThread(rounds: seq<Taking>): seq<Op> {
    if rounds == [] then []
    else
      var r := rounds[0];
      Take(r.waits, r.timedOut) + HandleMessage(if r.timedOut then Empty else r.message) + ReceiveThread(rounds[1..])
  }

  function SendThread(rounds: nat): seq<Op> {
    Repeat(Once(Update) + SendToEveryone(), rounds)
  }

  function UpdateThread(ticking: nat): seq<Op> {
    Repeat(Once(Update), ticking)
  }

  // ---------- the server's threads ----------

  /** A turn of the sender loop that found an individual message (with the number of times its client was
      signalled to stop), one that broadcasts (with the number of signals), and the turn that saw the stop. */
  datatype Turn = One(waits: nat, signals: nat) | All(waits: nat, signals: nat) | Stopped(waits: nat)

  function WaitForMessage(waits: nat): seq<Op> {
    Repeat(Once(Outgoing) + [Use(Messages)] + [Wait(Messages)], waits)
  }

  /** From the last emptiness test of the wait to the end of the locked region: the queue lock is taken inside the
      message lock, and when a message is found the message lock is let go first. */
  function PopOne(): seq<Op> {
    Once(Outgoing) + [Acquire(Outgoing)] + Once(Outgoing) + [Release(Messages)] + Once(Outgoing) + [Release(Outgoing)]
  }

  /** When none is found, popMessageToEveryone locks the message mutex again. */
  function PopAll(): seq<Op> {
    Once(Outgoing) + [Acquire(Outgoing)] + Once(Outgoing) + [Release(Outgoing)] + Once(Messages) + [Release(Messages)]
  }

  function SenderTurn(turn: Turn): seq<Op> {
    var waiting := [Acquire(Messages)] + WaitForMessage(turn.waits);
    match turn
    case One(_, signals) => waiting + PopOne() + (Once(Clients) + Repeat(Once(Clients), signals))
    case All(_, signals) => waiting + PopAll() + (Once(Clients) + Repeat(Once(Clients), signals))
    case Stopped(_) => waiting + [Release(Messages)]
  }

  /** The drain holds the outgoing queue while it tests and pops it. */
  function Drain(left: nat): seq<Op> {
    [Acquire(Outgoing)] + Repeat(Once(Outgoing) + Once(Outgoing), left) + Once(Outgoing) + [Release(Outgoing)]
  }

  function Turns(turns: seq<Turn>): seq<Op> {
    if turns == [] then [] else SenderTurn(turns[0]) + Turns(turns[1..])
  }

  function Sender(turns: seq<Turn>, left: nat): seq<Op> {
    Turns(turns) + Drain(left)
  }

  /** A receiver thread: announcement, reading its socket, then for each round the status test and perhaps a push,
      and at the end LOST_CONNECTION and stopClient. */
  function Receiver(rounds: seq<bool>): seq<Op> {
    Once(Received) + Once(Clients) + ReceiverRounds(rounds) + Once(Received) + Once(Clients)
  }

  function ReceiverRounds(rounds: seq<bool>): seq<Op> {
    if rounds == [] then Once(Clients)
    else
      Once(Clients) + (if rounds[0] then [Acquire(Received)] + Once(Received) + [Release(Received)] else [])
      + ReceiverRounds(rounds[1..])
  }

  /** A connection the listener has accepted: its receiver thread could be created, and how it then behaved, or not. */
  datatype Connection = Served(rounds: seq<bool>) | Unserved

  /** addClient: the thread is created while the client table is locked. */
  function Listener(connections: seq<Connection>, next: nat): seq<Op> {
    if connections == [] then []
    else if connections[0].Unserved? then Once(Clients) + Listener(connections[1..], next)
    else
      [Acquire(Clients)] + ([Use(Clients)] + [Start(next)]) + [Release(Clients)]
      + Listener(connections[1..], next + 1)
  }

  /** The receiver threads, in the order in which they are created. */
  function Receivers(connections: seq<Connection>): seq<seq<Op>> {
    if connections == [] then []
    else (if connections[0].Served? then [Receiver(connections[0].rounds)] else []) + Receivers(connections[1..])
  }

  // ---------- the main thread ----------

  const UPDATE := 1
  const SEND := 2
  const RECEIVE := 3
  const LISTENER := 4
  const SENDER := 5
  const FIRST_RECEIVER := 6

  function JoinReceivers(n: nat): seq<Op> {
    if n == 0 then [] else JoinReceivers(n - 1) + [Join(FIRST_RECEIVER + n - 1)]
  }

  /** runServer starts the listener and the sender, Game::run the host's threads, which it joins; stopServer then joins
      the listener, the sender and, after marking every client, the receivers, and empties the received queue. */
  function MainThread(receivers: nat, left: nat): seq<Op> {
    [Start(LISTENER), Start(SENDER), Start(UPDATE), Start(SEND), Start(RECEIVE)]
    + [Join(RECEIVE), Join(SEND), Join(UPDATE), Join(LISTENER), Join(SENDER)] + Once(Clients) + JoinReceivers(receivers)
    + Repeat(Once(Received) + Once(Received), left) + Once(Received)
  }

  /** Everything that is not fixed by the code: how often each loop runs and which branch it takes. */
  datatype Choices = Choices(
    ticking: nat, sending: nat, taking: seq<Taking>, connections: seq<Connection>, turns: seq<Turn>, unsent: nat,
    unread: nat)

  function Programs(x: Choices): (ps: seq<seq<Op>>)
    ensures |ps| == FIRST_RECEIVER + |Receivers(x.connections)|
  {
    [MainThread(|Receivers(x.connections)|, x.unread), UpdateThread(x.ticking), SendThread(x.sending),
     ReceiveThread(x.taking), Listener(x.connections, FIRST_RECEIVER), Sender(x.turns, x.unsent)]
    + Receivers(x.connections)
  }

  /** At the beginning only the main thread runs. */
  function Threads(x: Choices): (ts: seq<Thread>)
    ensures |ts| == |Programs(x)|
    ensures forall i :: 0 <= i < |ts| ==> ts[i] == Thread(i == 0, FREE, Programs(x)[i])
  {
    seq(|Programs(x)|, i requires 0 <= i < |Programs(x)| => Thread(i == 0, FREE, Programs(x)[i]))
  }

  // ---------- every routine keeps the discipline ----------

  /** From `h` the operations bring the thread back to `h`. */
  predicate Returns(i: nat, h: Held, ops: seq<Op>) {
    Keeps(i, h, ops, h)
  }

  lemma SingleStep(i: nat, h: Held, op: Op, after: Held)
    requires Keeps(i, h, [op], after) || (op.Acquire? && MayAcquire(h, op.l)
                                          && after == h.With(op.l, h.Depth(op.l) + 1))
             || (op.Release? && h.Depth(op.l) > 0 && after == h.With(op.l, h.Depth(op.l) - 1))
    ensures Keeps(i, h, [op], after)
  {
    assert [op][1..] == [];
  }

  lemma UseReturns(i: nat, h: Held, l: Lock)
    requires h.Depth(l) > 0
    ensures Returns(i, h, [Use(l)])
  {
    assert [Use(l)][1..] == [];
  }

  lemma OnceReturns(i: nat, h: Held, l: Lock)
    requires MayAcquire(h, l)
    ensures Returns(i, h, Once(l))
  {
    var h1 := h.With(l, h.Depth(l) + 1);
    assert h1.With(l, h1.Depth(l) - 1) == h;
    UseReturns(i, h1, l);
    SingleStep(i, h, Acquire(l), h1);
    SingleStep(i, h1, Release(l), h);
    KeepsSequence(i, h, [Acquire(l)], h1, [Use(l)], h1);
    KeepsSequence(i, h, [Acquire(l)] + [Use(l)], h1, [Release(l)], h);
    assert Once(l) == [Acquire(l)] + [Use(l)] + [Release(l)];
  }

  lemma ThenReturns(i: nat, h: Held, a: seq<Op>, b: seq<Op>)
    requires Returns(i, h, a) && Returns(i, h, b)
    ensures Returns(i, h, a + b)
  {
    KeepsSequence(i, h, a, h, b, h);
  }

  lemma {:induction false} RepeatReturns(i: nat, h: Held, ops: seq<Op>, n: nat)
    requires Returns(i, h, ops)
    ensures Returns(i, h, Repeat(ops, n))
  {
    if n > 0 {
      RepeatReturns(i, h, ops, n - 1);
      ThenReturns(i, h, ops, Repeat(ops, n - 1));
    }
  }

  /** Locking `l` around operations that bring the thread back. */
  lemma WithinReturns(i: nat, h: Held, l: Lock, ops: seq<Op>)
    requires MayAcquire(h, l) && Returns(i, h.With(l, h.Depth(l) + 1), ops)
    ensures Returns(i, h, [Acquire(l)] + ops + [Release(l)])
  {
    var h1 := h.With(l, h.Depth(l) + 1);
    assert h1.With(l, h1.Depth(l) - 1) == h;
    assert [Release(l)][1..] == [] && [Acquire(l)][1..] == [];
    assert Keeps(i, h, [Acquire(l)], h1);
    assert Keeps(i, h1, [Release(l)], h);
    KeepsSequence(i, h, [Acquire(l)], h1, ops, h1);
    KeepsSequence(i, h, [Acquire(l)] + ops, h1, [Release(l)], h);
  }

  lemma HandleMessageReturns(i: nat, m: Incoming)
    ensures Returns(i, FREE, HandleMessage(m))
  {
    var u := FREE.With(Update, 1);
    OnceReturns(i, u, Outgoing);
    OnceReturns(i, FREE, Outgoing);
    OnceReturns(i, FREE, Update);
    UseReturns(i, u, Update);
    ThenReturns(i, u, [Use(Update)], SendTo());
    ThenReturns(i, u, SendTo(), [Use(Update)]);
    WithinReturns(i, FREE, Update, [Use(Update)] + SendTo());
    WithinReturns(i, FREE, Update, SendTo() + [Use(Update)]);
    if m.NewConnection? {
      ThenReturns(i, FREE, [Acquire(Update)] + ([Use(Update)] + SendTo()) + [Release(Update)], SendTo());
    }
  }

  lemma WaitLoopReturns(i: nat, l: Lock, test: seq<Op>, waits: nat)
    requires Returns(i, FREE.With(l, 1), test)
    ensures Returns(i, FREE.With(l, 1), Repeat(test + [Wait(l)], waits))
  {
    var h := FREE.With(l, 1);
    assert [Wait(l)][1..] == [];
    assert Returns(i, h, [Wait(l)]);
    ThenReturns(i, h, test, [Wait(l)]);
    RepeatReturns(i, h, test + [Wait(l)], waits);
  }

  lemma TakeReturns(i: nat, waits: nat, timedOut: bool)
    ensures Returns(i, FREE, Take(waits, timedOut))
  {
    var h := FREE.With(Received, 1);
    OnceReturns(i, h, Received);
    WaitLoopReturns(i, Received, Once(Received), waits);
    ThenReturns(i, h, Once(Received), Once(Received));
    var loop := Repeat(Once(Received) + [Wait(Received)], waits);
    var rest := if timedOut then [] else Once(Received) + Once(Received);
    ThenReturns(i, h, loop, rest);
    WithinReturns(i, FREE, Received, loop + rest);
    assert [Acquire(Received)] + loop + rest + [Release(Received)]
        == [Acquire(Received)] + (loop + rest) + [Release(Received)];
  }

  lemma {:induction false} ReceiveThreadReturns(i: nat, rounds: seq<Taking>)
    ensures Returns(i, FREE, ReceiveThread(rounds))
  {
    if rounds != [] {
      var r := rounds[0];
      var m := if r.timedOut then Empty else r.message;
      TakeReturns(i, r.waits, r.timedOut);
      HandleMessageReturns(i, m);
      ReceiveThreadReturns(i, rounds[1..]);
      ThenReturns(i, FREE, Take(r.waits, r.timedOut), HandleMessage(m));
      ThenReturns(i, FREE, Take(r.waits, r.timedOut) + HandleMessage(m), ReceiveThread(rounds[1..]));
    }
  }

  lemma HostLoopsReturn(i: nat, rounds: nat)
    ensures Returns(i, FREE, SendThread(rounds)) && Returns(i, FREE, UpdateThread(rounds))
  {
    OnceReturns(i, FREE, Update);
    OnceReturns(i, FREE, Messages);
    ThenReturns(i, FREE, Once(Update), SendToEveryone());
    RepeatReturns(i, FREE, Once(Update) + SendToEveryone(), rounds);
    RepeatReturns(i, FREE, Once(Update), rounds);
  }

  lemma WaitForMessageReturns(i: nat, waits: nat)
    ensures Keeps(i, FREE, [Acquire(Messages)] + WaitForMessage(waits), FREE.With(Messages, 1))
  {
    var m := FREE.With(Messages, 1);
    assert [Acquire(Messages)][1..] == [];
    assert Keeps(i, FREE, [Acquire(Messages)], m);
    OnceReturns(i, m, Outgoing);
    UseReturns(i, m, Messages);
    ThenReturns(i, m, Once(Outgoing), [Use(Messages)]);
    WaitLoopReturns(i, Messages, Once(Outgoing) + [Use(Messages)], waits);
    KeepsSequence(i, FREE, [Acquire(Messages)], m, WaitForMessage(waits), m);
  }

  lemma PopTurnKeeps(i: nat)
    ensures Keeps(i, FREE.With(Messages, 1), PopOne(), FREE)
  {
    var m := FREE.With(Messages, 1);
    var both := m.With(Outgoing, 1);
    var o := FREE.With(Outgoing, 1);
    OnceReturns(i, m, Outgoing);
    OnceReturns(i, both, Outgoing);
    OnceReturns(i, o, Outgoing);
    SingleStep(i, m, Acquire(Outgoing), both);
    SingleStep(i, both, Release(Messages), o);
    SingleStep(i, o, Release(Outgoing), FREE);
    hide Keeps, Once;
    KeepsSequence(i, m, Once(Outgoing), m, [Acquire(Outgoing)], both);
    KeepsSequence(i, m, Once(Outgoing) + [Acquire(Outgoing)], both, Once(Outgoing), both);
    KeepsSequence(i, m, Once(Outgoing) + [Acquire(Outgoing)] + Once(Outgoing), both, [Release(Messages)], o);
    KeepsSequence(i, m, Once(Outgoing) + [Acquire(Outgoing)] + Once(Outgoing) + [Release(Messages)], o,
                  Once(Outgoing), o);
    KeepsSequence(i, m, Once(Outgoing) + [Acquire(Outgoing)] + Once(Outgoing) + [Release(Messages)] + Once(Outgoing), o,
                  [Release(Outgoing)], FREE);
  }

  lemma BroadcastTurnKeeps(i: nat)
    ensures Keeps(i, FREE.With(Messages, 1), PopAll(), FREE)
  {
    var m := FREE.With(Messages, 1);
    var both := m.With(Outgoing, 1);
    OnceReturns(i, m, Outgoing);
    OnceReturns(i, both, Outgoing);
    OnceReturns(i, m, Messages);
    SingleStep(i, m, Acquire(Outgoing), both);
    SingleStep(i, both, Release(Outgoing), m);
    SingleStep(i, m, Release(Messages), FREE);
    hide Keeps, Once;
    KeepsSequence(i, m, Once(Outgoing), m, [Acquire(Outgoing)], both);
    KeepsSequence(i, m, Once(Outgoing) + [Acquire(Outgoing)], both, Once(Outgoing), both);
    KeepsSequence(i, m, Once(Outgoing) + [Acquire(Outgoing)] + Once(Outgoing), both, [Release(Outgoing)], m);
    KeepsSequence(i, m, Once(Outgoing) + [Acquire(Outgoing)] + Once(Outgoing) + [Release(Outgoing)], m,
                  Once(Messages), m);
    KeepsSequence(i, m, Once(Outgoing) + [Acquire(Outgoing)] + Once(Outgoing) + [Release(Outgoing)] + Once(Messages), m,
                  [Release(Messages)], FREE);
  }

  lemma SenderTurnReturns(i: nat, turn: Turn)
    ensures Returns(i, FREE, SenderTurn(turn))
  {
    var m := FREE.With(Messages, 1);
    var waiting := [Acquire(Messages)] + WaitForMessage(turn.waits);
    WaitForMessageReturns(i, turn.waits);
    SingleStep(i, m, Release(Messages), FREE);
    PopTurnKeeps(i);
    BroadcastTurnKeeps(i);
    OnceReturns(i, FREE, Clients);
    hide Keeps, Once, WaitForMessage, PopOne, PopAll, Repeat;
    match turn
    case Stopped(_) => KeepsSequence(i, FREE, waiting, m, [Release(Messages)], FREE);
    case One(_, signals) =>
      KeepsSequence(i, FREE, waiting, m, PopOne(), FREE);
      SendingReturns(i, signals);
      ThenReturns(i, FREE, waiting + PopOne(), Once(Clients) + Repeat(Once(Clients), signals));
    case All(_, signals) =>
      KeepsSequence(i, FREE, waiting, m, PopAll(), FREE);
      SendingReturns(i, signals);
      ThenReturns(i, FREE, waiting + PopAll(), Once(Clients) + Repeat(Once(Clients), signals));
  }

  lemma SendingReturns(i: nat, signals: nat)
    ensures Returns(i, FREE, Once(Clients) + Repeat(Once(Clients), signals))
  {
    OnceReturns(i, FREE, Clients);
    RepeatReturns(i, FREE, Once(Clients), signals);
    ThenReturns(i, FREE, Once(Clients), Repeat(Once(Clients), signals));
  }

  lemma DrainReturns(i: nat, left: nat)
    ensures Returns(i, FREE, Drain(left))
  {
    var o := FREE.With(Outgoing, 1);
    OnceReturns(i, o, Outgoing);
    ThenReturns(i, o, Once(Outgoing), Once(Outgoing));
    RepeatReturns(i, o, Once(Outgoing) + Once(Outgoing), left);
    var loop := Repeat(Once(Outgoing) + Once(Outgoing), left);
    ThenReturns(i, o, loop, Once(Outgoing));
    WithinReturns(i, FREE, Outgoing, loop + Once(Outgoing));
    assert [Acquire(Outgoing)] + loop + Once(Outgoing) + [Release(Outgoing)]
        == [Acquire(Outgoing)] + (loop + Once(Outgoing)) + [Release(Outgoing)];
  }

  lemma {:induction false} TurnsReturn(i: nat, turns: seq<Turn>)
    ensures Returns(i, FREE, Turns(turns))
  {
    if turns != [] {
      SenderTurnReturns(i, turns[0]);
      TurnsReturn(i, turns[1..]);
      ThenReturns(i, FREE, SenderTurn(turns[0]), Turns(turns[1..]));
    }
  }

  lemma SenderReturns(i: nat, turns: seq<Turn>, left: nat)
    ensures Returns(i, FREE, Sender(turns, left))
  {
    TurnsReturn(i, turns);
    DrainReturns(i, left);
    ThenReturns(i, FREE, Turns(turns), Drain(left));
  }

  lemma {:induction false} ReceiverRoundsReturn(i: nat, rounds: seq<bool>)
    ensures Returns(i, FREE, ReceiverRounds(rounds))
  {
    OnceReturns(i, FREE, Clients);
    if rounds != [] {
      OnceReturns(i, FREE.With(Received, 1), Received);
      WithinReturns(i, FREE, Received, Once(Received));
      var push := if rounds[0] then [Acquire(Received)] + Once(Received) + [Release(Received)] else [];
      ThenReturns(i, FREE, Once(Clients), push);
      ReceiverRoundsReturn(i, rounds[1..]);
      ThenReturns(i, FREE, Once(Clients) + push, ReceiverRounds(rounds[1..]));
    }
  }

  lemma ReceiverReturns(i: nat, rounds: seq<bool>)
    ensures Returns(i, FREE, Receiver(rounds))
  {
    OnceReturns(i, FREE, Received);
    OnceReturns(i, FREE, Clients);
    ReceiverRoundsReturn(i, rounds);
    var ends := Once(Received) + Once(Clients);
    ThenReturns(i, FREE, Once(Received), Once(Clients));
    ThenReturns(i, FREE, ends, ReceiverRounds(rounds));
    ThenReturns(i, FREE, ends + ReceiverRounds(rounds), Once(Received));
    ThenReturns(i, FREE, ends + ReceiverRounds(rounds) + Once(Received), Once(Clients));
  }

  lemma StartReturns(i: nat, h: Held, j: nat)
    requires i < j
    ensures Returns(i, h, [Start(j)])
  {
    assert [Start(j)][1..] == [];
  }

  lemma {:induction false} ListenerReturns(i: nat, connections: seq<Connection>, next: nat)
    requires i < next
    ensures Returns(i, FREE, Listener(connections, next))
  {
    if connections != [] {
      OnceReturns(i, FREE, Clients);
      var c := FREE.With(Clients, 1);
      UseReturns(i, c, Clients);
      StartReturns(i, c, next);
      ThenReturns(i, c, [Use(Clients)], [Start(next)]);
      WithinReturns(i, FREE, Clients, [Use(Clients)] + [Start(next)]);
      if connections[0].Unserved? {
        ListenerReturns(i, connections[1..], next);
        ThenReturns(i, FREE, Once(Clients), Listener(connections[1..], next));
      } else {
        ListenerReturns(i, connections[1..], next + 1);
        ThenReturns(i, FREE, [Acquire(Clients)] + ([Use(Clients)] + [Start(next)]) + [Release(Clients)],
                    Listener(connections[1..], next + 1));
      }
    }
  }

  lemma JoinReturns(i: nat, j: nat)
    requires i == 0 < j
    ensures Returns(i, FREE, [Join(j)])
  {
    assert [Join(j)][1..] == [];
  }

  lemma {:induction false} JoinReceiversReturn(n: nat)
    ensures Returns(0, FREE, JoinReceivers(n))
  {
    if n > 0 {
      JoinReceiversReturn(n - 1);
      JoinReturns(0, FIRST_RECEIVER + n - 1);
      ThenReturns(0, FREE, JoinReceivers(n - 1), [Join(FIRST_RECEIVER + n - 1)]);
    }
  }

  lemma MainThreadReturns(receivers: nat, left: nat)
    ensures Returns(0, FREE, MainThread(receivers, left))
  {
    var starts := [Start(LISTENER), Start(SENDER), Start(UPDATE), Start(SEND), Start(RECEIVE)];
    var joins := starts + [Join(RECEIVE), Join(SEND), Join(UPDATE), Join(LISTENER), Join(SENDER)];
    assert Returns(0, FREE, joins) by {
      StartsReturn();
      FirstJoinsReturn();
      ThenReturns(0, FREE, starts, [Join(RECEIVE), Join(SEND), Join(UPDATE), Join(LISTENER), Join(SENDER)]);
    }
    OnceReturns(0, FREE, Clients);
    OnceReturns(0, FREE, Received);
    JoinReceiversReturn(receivers);
    ThenReturns(0, FREE, Once(Received), Once(Received));
    RepeatReturns(0, FREE, Once(Received) + Once(Received), left);
    hide Keeps, Once, Repeat, JoinReceivers;
    ThenReturns(0, FREE, joins, Once(Clients));
    ThenReturns(0, FREE, joins + Once(Clients), JoinReceivers(receivers));
    var emptying := Repeat(Once(Received) + Once(Received), left);
    ThenReturns(0, FREE, joins + Once(Clients) + JoinReceivers(receivers), emptying);
    ThenReturns(0, FREE, joins + Once(Clients) + JoinReceivers(receivers) + emptying, Once(Received));
  }

  lemma StartsReturn()
    ensures Returns(0, FREE, [Start(LISTENER), Start(SENDER), Start(UPDATE), Start(SEND), Start(RECEIVE)])
  {
    StartReturns(0, FREE, LISTENER);
    StartReturns(0, FREE, SENDER);
    StartReturns(0, FREE, UPDATE);
    StartReturns(0, FREE, SEND);
    StartReturns(0, FREE, RECEIVE);
    hide Keeps;
    ThenReturns(0, FREE, [Start(LISTENER)], [Start(SENDER)]);
    ThenReturns(0, FREE, [Start(LISTENER)] + [Start(SENDER)], [Start(UPDATE)]);
    ThenReturns(0, FREE, [Start(LISTENER)] + [Start(SENDER)] + [Start(UPDATE)], [Start(SEND)]);
    ThenReturns(0, FREE, [Start(LISTENER)] + [Start(SENDER)] + [Start(UPDATE)] + [Start(SEND)], [Start(RECEIVE)]);
    assert [Start(LISTENER)] + [Start(SENDER)] + [Start(UPDATE)] + [Start(SEND)] + [Start(RECEIVE)]
        == [Start(LISTENER), Start(SENDER), Start(UPDATE), Start(SEND), Start(RECEIVE)];
  }

  lemma FirstJoinsReturn()
    ensures Returns(0, FREE, [Join(RECEIVE), Join(SEND), Join(UPDATE), Join(LISTENER), Join(SENDER)])
  {
    JoinReturns(0, RECEIVE);
    JoinReturns(0, SEND);
    JoinReturns(0, UPDATE);
    JoinReturns(0, LISTENER);
    JoinReturns(0, SENDER);
    hide Keeps;
    ThenReturns(0, FREE, [Join(RECEIVE)], [Join(SEND)]);
    ThenReturns(0, FREE, [Join(RECEIVE)] + [Join(SEND)], [Join(UPDATE)]);
    ThenReturns(0, FREE, [Join(RECEIVE)] + [Join(SEND)] + [Join(UPDATE)], [Join(LISTENER)]);
    ThenReturns(0, FREE, [Join(RECEIVE)] + [Join(SEND)] + [Join(UPDATE)] + [Join(LISTENER)], [Join(SENDER)]);
    assert [Join(RECEIVE)] + [Join(SEND)] + [Join(UPDATE)] + [Join(LISTENER)] + [Join(SENDER)]
        == [Join(RECEIVE), Join(SEND), Join(UPDATE), Join(LISTENER), Join(SENDER)];
  }

  // ---------- every thread is started, and the main thread starts before it joins ----------

  lemma {:induction false} ReceiversReturn(connections: seq<Connection>, k: nat, i: nat)
    requires k < |Receivers(connections)|
    ensures Returns(i, FREE, Receivers(connections)[k])
  {
    if connections[0].Unserved? {
      ReceiversReturn(connections[1..], k, i);
    } else if k == 0 {
      ReceiverReturns(i, connections[0].rounds);
    } else {
      ReceiversReturn(connections[1..], k - 1, i);
    }
  }

  lemma {:induction false} ListenerStarts(connections: seq<Connection>, next: nat, k: nat)
    requires k < |Receivers(connections)|
    ensures Start(next + k) in Listener(connections, next)
  {
    var rest := connections[1..];
    if connections[0].Unserved? {
      ListenerStarts(rest, next, k);
    } else if k > 0 {
      ListenerStarts(rest, next + 1, k - 1);
    }
  }

  lemma {:induction false} RepeatStartsNobody(ops: seq<Op>, n: nat)
    requires forall op :: op in ops ==> !op.Start?
    ensures forall op :: op in Repeat(ops, n) ==> !op.Start?
  {
    if n > 0 {
      RepeatStartsNobody(ops, n - 1);
    }
  }

  lemma {:induction false} JoinsStartNobody(n: nat)
    ensures forall op :: op in JoinReceivers(n) ==> !op.Start?
  {
    if n > 0 {
      JoinsStartNobody(n - 1);
    }
  }

  lemma MainStartsFirst(receivers: nat, left: nat)
    ensures StartsFirst(MainThread(receivers, left))
  {
    var starts := [Start(LISTENER), Start(SENDER), Start(UPDATE), Start(SEND), Start(RECEIVE)];
    var joins := [Join(RECEIVE), Join(SEND), Join(UPDATE), Join(LISTENER), Join(SENDER)] + Once(Clients)
        + JoinReceivers(receivers);
    var emptying := Repeat(Once(Received) + Once(Received), left) + Once(Received);
    JoinsStartNobody(receivers);
    RepeatStartsNobody(Once(Received) + Once(Received), left);
    assert forall op :: op in joins ==> !op.Start?;
    assert forall op :: op in emptying ==> !op.Start?;
    hide Repeat, JoinReceivers, Once;
    var rest := joins + emptying;
    assert MainThread(receivers, left) == starts + rest;
    assert forall q :: 0 <= q < |rest| ==> rest[q] in joins || rest[q] in emptying;
  }

  /** Every thread of the program keeps the lock order, waits only at depth one with nothing else held, and is started
      once by a thread that runs; the main thread alone joins, with nothing held, after all its starts. */
  lemma EveryThreadIsDisciplined(x: Choices)
    ensures LockOrder.Ready(Threads(x))
  {
    var n := |Receivers(x.connections)|;
    forall i | 0 <= i < |Threads(x)| ensures Returns(i, FREE, Programs(x)[i]) {
      if i == 0 {
        MainThreadReturns(n, x.unread);
      } else if i == UPDATE {
        HostLoopsReturn(i, x.ticking);
      } else if i == SEND {
        HostLoopsReturn(i, x.sending);
      } else if i == RECEIVE {
        ReceiveThreadReturns(i, x.taking);
      } else if i == LISTENER {
        ListenerReturns(i, x.connections, FIRST_RECEIVER);
      } else if i == SENDER {
        SenderReturns(i, x.turns, x.unsent);
      } else {
        ReceiversReturn(x.connections, i - FIRST_RECEIVER, i);
      }
    }
    MainStartsFirst(n, x.unread);
    AllStarted(x);
    assert Programs(x)[0] == MainThread(n, x.unread);
    hide Programs, MainThread, Keeps, Returns, StartsFirst, Receivers;
    AllReady(Threads(x));
  }

  lemma AllStarted(x: Choices)
    ensures forall j :: 0 < j < |Threads(x)| ==> exists i :: 0 <= i < j && Start(j) in Threads(x)[i].todo
  {
    var ts := Threads(x);
    forall j | 0 < j < |ts| ensures exists i :: 0 <= i < j && Start(j) in ts[i].todo {
      if j < FIRST_RECEIVER {
        MainStarts(|Receivers(x.connections)|, x.unread, j);
        assert Start(j) in ts[0].todo;
      } else {
        ListenerStarts(x.connections, FIRST_RECEIVER, j - FIRST_RECEIVER);
        assert Start(j) in ts[LISTENER].todo;
      }
    }
  }

  lemma MainStarts(receivers: nat, left: nat, j: nat)
    requires 0 < j < FIRST_RECEIVER
    ensures Start(j) in MainThread(receivers, left)
  {
    var main := MainThread(receivers, left);
    hide Repeat, JoinReceivers;
    assert main[0] == Start(LISTENER) && main[1] == Start(SENDER) && main[2] == Start(UPDATE) && main[3] == Start(SEND)
        && main[4] == Start(RECEIVE);
  }

  lemma AllReady(ts: seq<Thread>)
    requires forall i :: 0 <= i < |ts| ==>
               ts[i].held == FREE && Returns(i, FREE, ts[i].todo) && (ts[i].started <==> i == 0)
    requires forall j :: 0 < j < |ts| ==> exists i :: 0 <= i < j && Start(j) in ts[i].todo
    requires ts != [] ==> StartsFirst(ts[0].todo)
    ensures LockOrder.Ready(ts)
  {}

  /** The server and its host never deadlock: whatever the loops and branches do and however the threads are
      scheduled, some thread that has been started can go on until all of them have ended. */
  lemma ServerNeverDeadlocks(x: Choices, schedule: seq<nat>)
    requires RunOk(Threads(x), schedule)
    ensures var now := After(Threads(x), schedule);
            && Exclusive(now) && (forall i :: 0 <= i < |now| ==> Tidy(now[i].held))
            && (Finished(now) || exists k :: CanStep(now, k))
  {
    EveryThreadIsDisciplined(x);
    NoDeadlock(Threads(x), schedule);
  }

  /** However the threads are scheduled, one that is about to touch the game, the slot, a queue or the client table
      holds its lock, and no other thread does. */
  lemma ServerNeverRaces(x: Choices, schedule: seq<nat>, i: nat, l: Lock)
    requires RunOk(Threads(x), schedule) && i < |Threads(x)| && AboutToUse(After(Threads(x), schedule)[i], l)
    ensures var now := After(Threads(x), schedule);
            Holds(now[i], l) && forall j :: 0 <= j < |now| && j != i ==> !Holds(now[j], l) && !AboutToUse(now[j], l)
  {
    EveryThreadIsDisciplined(x);
    NoInterference(Threads(x), schedule, i, l);
  }

  /** Each path through handleMessage but that of an EMPTY message takes the game's lock first and gives it back once,
      at q, and touches the game in between. */
  lemma MessagesAreHandledLocked(m: Incoming) returns (q: nat)
    requires !m.Empty?
    ensures var ops := HandleMessage(m);
            && 0 < q < |ops| && ops[0] == Acquire(Update) && ops[q] == Release(Update)
            && Use(Update) in ops[1..q]
            && forall p :: 0 < p < |ops| && p != q ==> ops[p] != Acquire(Update) && ops[p] != Release(Update)
  {
    var ops := HandleMessage(m);
    if m.NewConnection? {
      q := 5;
      assert ops[1] == Use(Update) && ops[1..q][0] == ops[1];
    } else if m.Ping? {
      q := 5;
      assert ops[4] == Use(Update) && ops[1..q][3] == ops[4];
    } else {
      q := 2;
      assert ops[1] == Use(Update) && ops[1..q][0] == ops[1];
    }
  }
}
