/** The sleeping barber: one barber process and n client processes share a status word, a counter
    and a message queue.  Every loop body runs under the semaphore, so it is one atomic step.
    Client processes are numbered 1..n; 0 is "nobody". */
module Barber {
  import opened Runs

  datatype Status = SLEEP | WAKES | SITS | SITS_FIRST | START | END | LEAVES | INVITES

  /** A client process: its variable `client` and the shaves it still wants. */
  datatype Local = Local(client: nat, left: nat)

  /** The shared memory, the queue, the barber's message buffer and the client processes. */
  datatype Shop = Shop(status: Status, clientPid: nat, waitingClients: int, queueLength: int,
                       queue: seq<nat>, msgPid: nat, locals: seq<Local>)

  predicate IsClient(s: Shop, p: nat) {
    0 < p <= |s.locals|
  }

  function Of(s: Shop, p: nat): Local
    requires IsClient(s, p)
  {
    s.locals[p - 1]
  }

  function With(s: Shop, p: nat, l: Local): Shop
    requires IsClient(s, p)
  {
    s.(locals := s.locals[p - 1 := l])
  }

  /** The messages the processes print. */
  datatype Event =
    | Idle
    | WakesBarber(p: nat) | SitsOnChair(p: nat) | Leaves(p: nat) | LeavesFull(p: nat) | SitsInWaitingRoom(p: nat)
    | BarberWakes | StartsCutting(p: nat) | EndsCutting(p: nat) | Invites(p: nat) | FallsAsleep

  // ---------------------------------------------------------------- the steps

  /** One turn of a client's loop.  A client that has had all its shaves has exited. */
  function ClientStep(s: Shop, p: nat): (Shop, Event)
    requires IsClient(s, p)
  {
    var me := Of(s, p);
    if me.left == 0 then (s, Idle)
    else if s.status == SLEEP && s.clientPid == 0 && me.client == 0 then
      (s.(clientPid := p, status := WAKES), WakesBarber(p))
    else if s.status == SITS_FIRST && s.clientPid == p then
      (With(s, p, me.(client := p)).(status := START), SitsOnChair(p))
    else if s.status == SITS && s.clientPid == p then
      (s.(status := START, waitingClients := s.waitingClients - 1), SitsOnChair(p))
    else if s.status == LEAVES && s.clientPid == p then
      (With(s, p, Local(0, me.left - 1)).(status := INVITES, clientPid := 0), Leaves(p))
    else if me.client == 0 && s.clientPid != 0 then
      if s.queueLength <= s.waitingClients then
        (With(s, p, me.(left := me.left - 1)), LeavesFull(p))
      else
        (With(s, p, me.(client := p)).(waitingClients := s.waitingClients + 1, queue := s.queue + [p]),
         SitsInWaitingRoom(p))
    else (s, Idle)
  }

  /** The non-blocking receive: on an empty queue it leaves the message buffer as it was. */
  function Receive(s: Shop): Shop {
    if s.queue == [] then s else s.(msgPid := s.queue[0], queue := s.queue[1..])
  }

  function BarberStep(s: Shop): (Shop, Event) {
    match s.status
    case WAKES => (s.(status := SITS_FIRST), BarberWakes)
    case START => (s.(status := END), StartsCutting(s.clientPid))
    case END => (s.(status := LEAVES), EndsCutting(s.clientPid))
    case INVITES =>
      if s.waitingClients > 0 then
        var s' := Receive(s);
        (s'.(clientPid := s'.msgPid, status := SITS), Invites(s'.msgPid))
      else (s.(status := SLEEP, clientPid := 0), FallsAsleep)
    case _ => (s, Idle)
  }

  /** 0 schedules the barber, a client number that client; any other number schedules nobody. */
  function Turn(s: Shop, who: nat): (Shop, Event) {
    if who == 0 then BarberStep(s) else if IsClient(s, who) then ClientStep(s, who) else (s, Idle)
  }

  function Initial(clients: nat, shaves: nat, queueLength: int, garbage: nat): Shop {
    Shop(INVITES, 0, 0, queueLength, [], garbage, seq(clients, _ => Local(0, shaves)))
  }

  /** A schedule says who runs next, for ever. */
  type Schedule = nat -> nat

  function Turns(): (Shop, nat) -> Shop {
    (s: Shop, who: nat) => Turn(s, who).0
  }

  function StateAt(s0: Shop, f: Schedule, n: nat): Shop {
    At(Turns(), s0, f, n)
  }

  function EventAt(s0: Shop, f: Schedule, n: nat): Event {
    Turn(StateAt(s0, f, n), f(n)).1
  }

  // ---------------------------------------------------------------- the steps in place

  /** The same steps as the processes take them, on shared memory. */
  class SharedMemory {
    var status: Status
    var clientPid: nat
    var waitingClients: int
    var queueLength: int
    var queue: seq<nat>
    var msgPid: nat
    var locals: seq<Local>

    function View(): Shop
      reads this
    {
      Shop(status, clientPid, waitingClients, queueLength, queue, msgPid, locals)
    }

    constructor (clients: nat, shaves: nat, length: int, garbage: nat)
      ensures View() == Initial(clients, shaves, length, garbage)
    {
      status, clientPid, waitingClients, queueLength := INVITES, 0, 0, length;
      queue, msgPid := [], garbage;
      locals := seq(clients, _ => Local(0, shaves));
    }

    method Client(p: nat) returns (e: Event)
      requires IsClient(View(), p)
      modifies this
      ensures (View(), e) == ClientStep(old(View()), p)
    {
      var me := locals[p - 1];
      if me.left == 0 {
        e := Idle;
      } else if status == SLEEP && clientPid == 0 && me.client == 0 {
        clientPid := p;
        status := WAKES;
        e := WakesBarber(p);
      } else if status == SITS_FIRST && clientPid == p {
        status := START;
        locals := locals[p - 1 := me.(client := p)];
        e := SitsOnChair(p);
      } else if status == SITS && clientPid == p {
        status := START;
        waitingClients := waitingClients - 1;
        e := SitsOnChair(p);
      } else if status == LEAVES && clientPid == p {
        status := INVITES;
        clientPid := 0;
        locals := locals[p - 1 := Local(0, me.left - 1)];
        e := Leaves(p);
      } else if me.client == 0 && clientPid != 0 {
        if queueLength <= waitingClients {
          locals := locals[p - 1 := me.(left := me.left - 1)];
          e := LeavesFull(p);
        } else {
          locals := locals[p - 1 := me.(client := p)];
          waitingClients := waitingClients + 1;
          queue := queue + [p];
          e := SitsInWaitingRoom(p);
        }
      } else {
        e := Idle;
      }
    }

    method BarberTurn() returns (e: Event)
      modifies this
      ensures (View(), e) == BarberStep(old(View()))
    {
      e := Idle;
      if status == WAKES {
        status := SITS_FIRST;
        e := BarberWakes;
      } else if status == START {
        status := END;
        e := StartsCutting(clientPid);
      } else if status == END {
        status := LEAVES;
        e := EndsCutting(clientPid);
      } else if status == INVITES {
        if waitingClients > 0 {
          if queue != [] { msgPid, queue := queue[0], queue[1..]; }
          clientPid := msgPid;
          status := SITS;
          e := Invites(clientPid);
        } else {
          status := SLEEP;
          clientPid := 0;
          e := FallsAsleep;
        }
      }
    }
  }

  // ---------------------------------------------------------------- safety on every schedule

  /** The seats of the waiting room. */
  function Room(s: Shop): nat {
    if s.queueLength < 0 then 0 else s.queueLength
  }

  predicate InChair(s: Shop, p: nat) {
    s.clientPid == p && s.status in {SITS, START, END, LEAVES}
  }

  /** What every step of every process keeps, on every schedule. */
  ghost predicate Coupled(s: Shop) {
    && 0 <= s.waitingClients <= Room(s)
    && |s.queue| == s.waitingClients - (if s.status == SITS then 1 else 0)
    && (s.clientPid == 0 <==> s.status == SLEEP || s.status == INVITES)
    && (s.status == SLEEP ==> s.waitingClients == 0)
    && (s.clientPid != 0 ==> IsClient(s, s.clientPid))
    && (forall p :: p in s.queue ==> IsClient(s, p))
    && (forall p :: IsClient(s, p) && Of(s, p).client != 0 ==> p in s.queue || InChair(s, p))
  }

  lemma InQueueAfter(s: Shop, p: nat)
    requires s.queue != []
    ensures p in s.queue <==> p == s.queue[0] || p in s.queue[1..]
  {
  }

  lemma TurnCoupled(s: Shop, who: nat)
    requires Coupled(s)
    ensures Coupled(Turn(s, who).0)
  {
    var t := Turn(s, who).0;
    if who == 0 {
      if s.status == INVITES && s.queue != [] {
        assert s.queue[0] in s.queue;
        forall p: nat
          ensures p in s.queue <==> p == s.queue[0] || p in s.queue[1..]
        {
          InQueueAfter(s, p);
        }
      }
    } else if IsClient(s, who) {
      forall p | IsClient(t, p) && p != who
        ensures Of(t, p) == Of(s, p)
      {
      }
    }
  }

  lemma InitialCoupled(clients: nat, shaves: nat, queueLength: int, garbage: nat)
    ensures Coupled(Initial(clients, shaves, queueLength, garbage))
  {
  }

  lemma {:induction false} RunCoupled(s0: Shop, f: Schedule, n: nat)
    requires Coupled(s0)
    ensures Coupled(StateAt(s0, f, n))
  {
    if n > 0 {
      RunCoupled(s0, f, n - 1);
      TurnCoupled(StateAt(s0, f, n - 1), f(n - 1));
    }
  }

  /** The barber's receive never meets an empty queue, so it always takes the oldest message. */
  lemma ReceiveFindsMessage(s: Shop)
    requires Coupled(s) && s.status == INVITES && s.waitingClients > 0
    ensures s.queue != [] && BarberStep(s).1 == Invites(s.queue[0])
    ensures BarberStep(s).0.queue == s.queue[1..]
  {
  }
}
