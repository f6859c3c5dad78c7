/**
 * One TCP server of the proxy: its connections, its message pool and its threads, as a state
 * machine. A step is one section under a mutex, one list operation, or one callback.
 */
module Lifetime {
  import opened Bytes

  /** A queued message: its number in the pool, the socket it came from or goes to, and its bytes. */
  datatype Msg = Msg(id: nat, fd: nat, data: seq<byte>)

  /** What a thread is doing, with the pooled messages (`id`, `held`) it has in its hands. */
  datatype Thread =
    | Free
    /** The event loop has taken a message for a readable connection. */
    | Receiving(fd: nat, id: nat)
    /** The message is counted and will be queued. */
    | Admitting(fd: nat, id: nat, data: seq<byte>)
    /** The event loop has stopped the connection's watcher, if it had one, and will tell the observer. */
    | Leaving(fd: nat, held: seq<nat>)
    /** The observer was told; the loop will close the connection or leave that to the last message. */
    | Deciding(fd: nat, held: seq<nat>)
    | Handling(fd: nat, id: nat, data: seq<byte>)
    | Handled(fd: nat, id: nat)
    | Sending(fd: nat, id: nat, data: seq<byte>)
    /** The message is back in the pool but still counted. */
    | Sent(fd: nat)
    /** The observer has released the connection; the socket will be closed. */
    | Closing(fd: nat, held: seq<nat>)
    /** Messages will be put back into the pool. */
    | Returning(held: seq<nat>)

  const MAIN: nat := 0
  const SENDER: nat := 1

  datatype Server = Server(
    /** The accepted sockets that were not closed. */
    open: set<nat>,
    /** The sockets whose receive watcher is started. */
    watched: set<nat>,
    count: map<nat, int>,
    closeRecv: map<nat, bool>,
    idle: seq<nat>,
    handleQ: seq<Msg>,
    sendQ: seq<Msg>,
    threads: seq<Thread>
  )

  /** What is summed over threads and queues. */
  datatype Kind = Counted | Held | Closers | Leavers

  function One(b: bool): nat {
    if b then 1 else 0
  }

  function Times(held: seq<nat>, x: nat): nat {
    multiset(held)[x]
  }

  /** How often a thread counts for `x`, which is a socket or, for `Held`, a message. */
  function OfThread(t: Thread, k: Kind, x: nat): nat {
    match k
    case Counted => One((t.Admitting? || t.Handling? || t.Handled? || t.Sending? || t.Sent?) && t.fd == x)
    case Held =>
      if t.Free? || t.Sent? then 0
      else if t.Leaving? || t.Deciding? || t.Closing? || t.Returning? then Times(t.held, x)
      else One(t.id == x)
    case Closers => One(t.Closing? && t.fd == x)
    case Leavers => One((t.Leaving? || t.Deciding?) && t.fd == x)
  }

  function OfThreads(ts: seq<Thread>, k: Kind, x: nat): nat {
    if ts == [] then 0 else OfThread(ts[0], k, x) + OfThreads(ts[1..], k, x)
  }

  function OfMessage(m: Msg, k: Kind, x: nat): nat {
    One(if k == Held then m.id == x else m.fd == x)
  }

  function OfQueue(q: seq<Msg>, k: Kind, x: nat): nat {
    if q == [] then 0 else OfMessage(q[0], k, x) + OfQueue(q[1..], k, x)
  }

  /** The number of messages of a socket that are queued or in a thread's hands. */
  function InFlight(s: Server, fd: nat): nat {
    OfQueue(s.handleQ, Counted, fd) + OfQueue(s.sendQ, Counted, fd) + OfThreads(s.threads, Counted, fd)
  }

  /** The number of places where a pooled message is. */
  function Places(s: Server, id: nat): nat {
    Times(s.idle, id) + OfQueue(s.handleQ, Held, id) + OfQueue(s.sendQ, Held, id) + OfThreads(s.threads, Held, id)
  }

  /** The number of threads for which the observer has released the socket, but which have not closed it. */
  function ClosersOf(s: Server, fd: nat): nat {
    OfThreads(s.threads, Closers, fd)
  }

  /** The number of threads that work on the socket's disconnection. */
  function LeaversOf(s: Server, fd: nat): nat {
    OfThreads(s.threads, Leavers, fd)
  }

  /** The sockets that the observer has to know. */
  function Known(s: Server): set<nat> {
    set fd | fd in s.open && ClosersOf(s, fd) == 0
  }

  lemma {:induction false} ThreadChanges(ts: seq<Thread>, i: nat, t: Thread, k: Kind, x: nat)
    requires i < |ts|
    ensures OfThreads(ts[i := t], k, x) + OfThread(ts[i], k, x) == OfThreads(ts, k, x) + OfThread(t, k, x)
    ensures OfThread(ts[i], k, x) <= OfThreads(ts, k, x)
  {
    hide OfThread;
    if i == 0 {
      assert ts[0 := t][1..] == ts[1..];
    } else {
      assert ts[i := t][1..] == ts[1..][i - 1 := t];
      ThreadChanges(ts[1..], i - 1, t, k, x);
    }
  }

  lemma {:induction false} QueueGrows(q: seq<Msg>, m: Msg, k: Kind, x: nat)
    ensures OfQueue(q + [m], k, x) == OfQueue(q, k, x) + OfMessage(m, k, x)
  {
    hide OfMessage;
    if q == [] {
      assert q + [m] == [m] && [m][1..] == [];
    } else {
      assert (q + [m])[1..] == q[1..] + [m];
      QueueGrows(q[1..], m, k, x);
    }
  }

  /** The steps of one server that need no other part of the proxy. */
  datatype Step =
    /** The event loop takes a message from the pool for a readable connection. */
    | Receive(fd: nat)
    /** Nothing could be received, or the handle queue is too long. */
    | NoData
    /** These bytes were received. */
    | Admit(data: seq<byte>)
    | Enqueue
    /** The peer has hung up, or receiving failed. */
    | HangUp
    | TakeToHandle(t: nat)
    | Parsed(t: nat)
    | TakeToSend
    | SendDone
    | Return(t: nat)

  predicate Enabled(s: Server, step: Step) {
    && MAIN < |s.threads| && SENDER < |s.threads|
    && match step
       case Receive(fd) => s.threads[MAIN] == Free && fd in s.watched && s.idle != []
       case NoData => s.threads[MAIN].Receiving?
       case Admit(data) => s.threads[MAIN].Receiving? && data != []
       case Enqueue => s.threads[MAIN].Admitting?
       case HangUp => s.threads[MAIN].Receiving?
       case TakeToHandle(t) => SENDER < t < |s.threads| && s.threads[t] == Free && s.handleQ != []
       case Parsed(t) => t < |s.threads| && s.threads[t].Handling?
       case TakeToSend => s.threads[SENDER] == Free && s.sendQ != []
       case SendDone => s.threads[SENDER].Sending?
       case Return(t) => t < |s.threads| && s.threads[t].Returning?
  }

  function Counts(s: Server, fd: nat): int {
    if fd in s.count then s.count[fd] else 0
  }

  function Apply(s: Server, step: Step): Server
    requires Enabled(s, step)
  {
    var main := s.threads[MAIN];
    match step
    case Receive(fd) => s.(idle := s.idle[1..], threads := s.threads[MAIN := Receiving(fd, s.idle[0])])
    case NoData => s.(threads := s.threads[MAIN := Returning([main.id])])
    case Admit(data) => s.(count := s.count[main.fd := Counts(s, main.fd) + 1], threads := s.threads[MAIN := Admitting(main.fd, main.id, data)])
    case Enqueue => s.(handleQ := s.handleQ + [Msg(main.id, main.fd, main.data)], threads := s.threads[MAIN := Free])
    case HangUp => s.(watched := s.watched - {main.fd}, threads := s.threads[MAIN := Leaving(main.fd, [main.id])])
    case TakeToHandle(t) => s.(handleQ := s.handleQ[1..], threads := s.threads[t := Handling(s.handleQ[0].fd, s.handleQ[0].id, s.handleQ[0].data)])
    case Parsed(t) => s.(threads := s.threads[t := Handled(s.threads[t].fd, s.threads[t].id)])
    case TakeToSend => s.(sendQ := s.sendQ[1..], threads := s.threads[SENDER := Sending(s.sendQ[0].fd, s.sendQ[0].id, s.sendQ[0].data)])
    case SendDone => s.(idle := s.idle + [s.threads[SENDER].id], threads := s.threads[SENDER := Sent(s.threads[SENDER].fd)])
    case Return(t) => s.(idle := s.idle + s.threads[t].held, threads := s.threads[t := Free])
  }

  // The steps that take part in a step of the whole proxy.

  /** A new socket, whose watcher is started or which is dropped at once. */
  function Accepted(s: Server, fd: nat, watch: bool): Server
    requires MAIN < |s.threads|
  {
    s.(open := s.open + {fd}, count := s.count[fd := 0], closeRecv := s.closeRecv[fd := false],
       watched := if watch then s.watched + {fd} else s.watched,
       threads := if watch then s.threads else s.threads[MAIN := Leaving(fd, [])])
  }

  function Told(s: Server): Server
    requires MAIN < |s.threads| && s.threads[MAIN].Leaving?
  {
    s.(threads := s.threads[MAIN := Deciding(s.threads[MAIN].fd, s.threads[MAIN].held)])
  }

  /** A pooled message is filled for a connection and queued for sending. */
  function QueuedToSend(s: Server, fd: nat, data: seq<byte>): Server
    requires s.idle != []
  {
    s.(idle := s.idle[1..], count := s.count[fd := Counts(s, fd) + 1], sendQ := s.sendQ + [Msg(s.idle[0], fd, data)])
  }

  /** The event loop decides whether a disconnected socket is closed now. */
  function Decided(s: Server): Server
    requires MAIN < |s.threads| && s.threads[MAIN].Deciding?
  {
    var fd, held := s.threads[MAIN].fd, s.threads[MAIN].held;
    if Counts(s, fd) == 0 then s.(threads := s.threads[MAIN := Closing(fd, held)])
    else s.(closeRecv := s.closeRecv[fd := true], threads := s.threads[MAIN := Returning(held)])
  }

  predicate DoneWithMessage(s: Server, t: nat) {
    t < |s.threads| && (s.threads[t].Handled? || s.threads[t].Sent?)
  }

  function HeldBy(t: Thread): seq<nat> {
    if t.Handled? then [t.id] else []
  }

  predicate IsLast(s: Server, fd: nat) {
    Counts(s, fd) == 1 && fd in s.closeRecv && s.closeRecv[fd]
  }

  /** A thread is done with a message; the last one of a disconnected socket closes it. */
  function Released(s: Server, t: nat): Server
    requires DoneWithMessage(s, t)
  {
    var fd, held := s.threads[t].fd, HeldBy(s.threads[t]);
    s.(count := s.count[fd := Counts(s, fd) - 1],
       threads := s.threads[t := if IsLast(s, fd) then Closing(fd, held) else Returning(held)])
  }

  function Closed(s: Server, t: nat): Server
    requires t < |s.threads| && s.threads[t].Closing?
  {
    s.(open := s.open - {s.threads[t].fd}, threads := s.threads[t := Returning(s.threads[t].held)])
  }

  /** Every thread keeps to its part, and the event loop receives only for watched sockets. */
  ghost predicate RolesOk(s: Server) {
    && |s.threads| > SENDER
    && (forall t :: 0 <= t < |s.threads| ==> RoleOk(t, s.threads[t]))
    && (s.threads[MAIN].Receiving? ==> s.threads[MAIN].fd in s.watched)
  }

  predicate RoleOk(t: nat, thread: Thread) {
    && (thread.Receiving? || thread.Admitting? || thread.Leaving? || thread.Deciding? ==> t == MAIN)
    && (thread.Sending? || thread.Sent? ==> t == SENDER)
    && (thread.Handling? || thread.Handled? ==> t > SENDER)
  }

  /**
   * Counts are exact; no message is in flight for a socket that is not open or is being closed;
   * and every open socket is watched, being left, being closed, or will be closed by the last of
   * its messages in flight.
   */
  ghost predicate SocketOk(s: Server, fd: nat) {
    && (fd in s.open ==>
          && fd in s.count && fd in s.closeRecv && s.count[fd] == InFlight(s, fd)
          && (fd in s.watched || LeaversOf(s, fd) > 0 || ClosersOf(s, fd) > 0 || (s.closeRecv[fd] && InFlight(s, fd) > 0)))
    && (fd !in s.open ==> InFlight(s, fd) == 0 && ClosersOf(s, fd) == 0 && LeaversOf(s, fd) == 0 && fd !in s.watched)
    && (ClosersOf(s, fd) > 0 ==> ClosersOf(s, fd) == 1 && InFlight(s, fd) == 0 && LeaversOf(s, fd) == 0 && fd !in s.watched)
    && (LeaversOf(s, fd) > 0 ==> LeaversOf(s, fd) == 1 && fd !in s.watched && !s.closeRecv[fd])
    && (fd in s.watched ==> !s.closeRecv[fd])
  }

  ghost predicate ServerInv(s: Server) {
    RolesOk(s) && forall fd :: SocketOk(s, fd)
  }

  /** What one thread's change does to the sums. */
  lemma ThreadSums(s: Server, t: nat, x: Thread, fd: nat)
    requires t < |s.threads|
    ensures var s', o := s.(threads := s.threads[t := x]), s.threads[t];
      && InFlight(s', fd) + OfThread(o, Counted, fd) == InFlight(s, fd) + OfThread(x, Counted, fd)
      && Places(s', fd) + OfThread(o, Held, fd) == Places(s, fd) + OfThread(x, Held, fd)
      && ClosersOf(s', fd) + OfThread(o, Closers, fd) == ClosersOf(s, fd) + OfThread(x, Closers, fd)
      && LeaversOf(s', fd) + OfThread(o, Leavers, fd) == LeaversOf(s, fd) + OfThread(x, Leavers, fd)
    ensures var o := s.threads[t];
      && OfThread(o, Counted, fd) <= InFlight(s, fd) && OfThread(o, Held, fd) <= Places(s, fd)
      && OfThread(o, Closers, fd) <= ClosersOf(s, fd) && OfThread(o, Leavers, fd) <= LeaversOf(s, fd)
  {
    hide OfThreads, OfThread, OfQueue;
    ThreadChanges(s.threads, t, x, Counted, fd);
    ThreadChanges(s.threads, t, x, Held, fd);
    ThreadChanges(s.threads, t, x, Closers, fd);
    ThreadChanges(s.threads, t, x, Leavers, fd);
  }

  lemma QueueShrinks(q: seq<Msg>, k: Kind, x: nat)
    requires q != []
    ensures OfQueue(q, k, x) == OfMessage(q[0], k, x) + OfQueue(q[1..], k, x)
  {
  }

  lemma IdleShrinks(idle: seq<nat>, x: nat)
    requires idle != []
    ensures Times(idle, x) == One(idle[0] == x) + Times(idle[1..], x)
  {
    assert idle == [idle[0]] + idle[1..];
  }

  lemma IdleGrows(idle: seq<nat>, held: seq<nat>, x: nat)
    ensures Times(idle + held, x) == Times(idle, x) + Times(held, x)
  {
  }

  lemma HeldOnce(id: nat, x: nat)
    ensures Times([id], x) == One(id == x)
  {
  }

  /** A step moves messages about; only counting and leaving a socket change the sums. */
  ghost predicate SumsMove(s: Server, s': Server, counted: nat, left: nat, x: nat) {
    && InFlight(s', x) == InFlight(s, x) + counted && Places(s', x) == Places(s, x)
    && ClosersOf(s', x) == ClosersOf(s, x) && LeaversOf(s', x) == LeaversOf(s, x) + left
  }

  lemma LoopSums(s: Server, step: Step, x: nat)
    requires Enabled(s, step) && (step.NoData? || step.Admit? || step.HangUp?)
    ensures SumsMove(s, Apply(s, step), One(step.Admit? && s.threads[MAIN].fd == x), One(step.HangUp? && s.threads[MAIN].fd == x), x)
  {
    hide OfThreads, OfQueue, Times;
    var main := s.threads[MAIN];
    HeldOnce(main.id, x);
    ThreadSums(s, MAIN, if step.NoData? then Returning([main.id]) else if step.Admit? then Admitting(main.fd, main.id, step.data) else Leaving(main.fd, [main.id]), x);
  }

  lemma ReceiveSums(s: Server, fd: nat, x: nat)
    requires Enabled(s, Receive(fd))
    ensures SumsMove(s, Apply(s, Receive(fd)), 0, 0, x)
  {
    hide OfThreads, OfQueue, Times;
    ThreadSums(s, MAIN, Receiving(fd, s.idle[0]), x);
    IdleShrinks(s.idle, x);
  }

  lemma SendDoneSums(s: Server, x: nat)
    requires Enabled(s, SendDone)
    ensures SumsMove(s, Apply(s, SendDone), 0, 0, x)
  {
    hide OfThreads, OfQueue, Times;
    ThreadSums(s, SENDER, Sent(s.threads[SENDER].fd), x);
    HeldOnce(s.threads[SENDER].id, x);
    IdleGrows(s.idle, [s.threads[SENDER].id], x);
  }

  lemma ReturnSums(s: Server, t: nat, x: nat)
    requires Enabled(s, Return(t))
    ensures SumsMove(s, Apply(s, Return(t)), 0, 0, x)
  {
    hide OfThreads, OfQueue, Times;
    ThreadSums(s, t, Free, x);
    IdleGrows(s.idle, s.threads[t].held, x);
  }

  lemma ParsedSums(s: Server, t: nat, x: nat)
    requires Enabled(s, Parsed(t))
    ensures SumsMove(s, Apply(s, Parsed(t)), 0, 0, x)
  {
    hide OfThreads, OfQueue, Times;
    ThreadSums(s, t, Handled(s.threads[t].fd, s.threads[t].id), x);
  }

  lemma EnqueueSums(s: Server, x: nat)
    requires Enabled(s, Enqueue)
    ensures SumsMove(s, Apply(s, Enqueue), 0, 0, x)
  {
    hide OfThreads, OfQueue, Times;
    var main := s.threads[MAIN];
    ThreadSums(s, MAIN, Free, x);
    QueueGrows(s.handleQ, Msg(main.id, main.fd, main.data), Counted, x);
    QueueGrows(s.handleQ, Msg(main.id, main.fd, main.data), Held, x);
  }

  lemma TakeToHandleSums(s: Server, t: nat, x: nat)
    requires Enabled(s, TakeToHandle(t))
    ensures SumsMove(s, Apply(s, TakeToHandle(t)), 0, 0, x)
  {
    hide OfThreads, OfQueue, Times;
    ThreadSums(s, t, Handling(s.handleQ[0].fd, s.handleQ[0].id, s.handleQ[0].data), x);
    QueueShrinks(s.handleQ, Counted, x);
    QueueShrinks(s.handleQ, Held, x);
  }

  lemma TakeToSendSums(s: Server, x: nat)
    requires Enabled(s, TakeToSend)
    ensures SumsMove(s, Apply(s, TakeToSend), 0, 0, x)
  {
    hide OfThreads, OfQueue, Times;
    ThreadSums(s, SENDER, Sending(s.sendQ[0].fd, s.sendQ[0].id, s.sendQ[0].data), x);
    QueueShrinks(s.sendQ, Counted, x);
    QueueShrinks(s.sendQ, Held, x);
  }

  lemma StepSums(s: Server, step: Step, x: nat)
    requires Enabled(s, step)
    ensures SumsMove(s, Apply(s, step), One(step.Admit? && s.threads[MAIN].fd == x), One(step.HangUp? && s.threads[MAIN].fd == x), x)
  {
    hide InFlight, Places, ClosersOf, LeaversOf, Apply;
    match step
    case NoData => LoopSums(s, step, x);
    case Admit(_) => LoopSums(s, step, x);
    case HangUp => LoopSums(s, step, x);
    case Receive(fd) => ReceiveSums(s, fd, x);
    case SendDone => SendDoneSums(s, x);
    case Return(t) => ReturnSums(s, t, x);
    case Parsed(t) => ParsedSums(s, t, x);
    case Enqueue => EnqueueSums(s, x);
    case TakeToHandle(t) => TakeToHandleSums(s, t, x);
    case TakeToSend => TakeToSendSums(s, x);
  }

  /** A step keeps the invariant and every message in the pool. */
  lemma StepKeepsInv(s: Server, step: Step)
    requires ServerInv(s) && Enabled(s, step)
    ensures ServerInv(Apply(s, step)) && forall id :: Places(Apply(s, step), id) == Places(s, id)
    ensures Apply(s, step).open == s.open && Known(Apply(s, step)) == Known(s)
    ensures forall fd :: LeaversOf(s, fd) > 0 ==> LeaversOf(Apply(s, step), fd) > 0 && InFlight(Apply(s, step), fd) == InFlight(s, fd)
  {
    hide InFlight, Places, ClosersOf, LeaversOf;
    var s' := Apply(s, step);
    forall x: nat
      ensures SocketOk(s', x) && Places(s', x) == Places(s, x) && ClosersOf(s', x) == ClosersOf(s, x)
      ensures LeaversOf(s, x) > 0 ==> LeaversOf(s', x) > 0 && InFlight(s', x) == InFlight(s, x)
    {
      assert SocketOk(s, x);
      StepSums(s, step, x);
    }
  }

  // The steps that take part in a step of the whole proxy.

  lemma AcceptKeepsInv(s: Server, fd: nat, watch: bool)
    requires ServerInv(s) && fd !in s.open && s.threads[MAIN] == Free
    ensures var s' := Accepted(s, fd, watch);
      && ServerInv(s') && Known(s') == Known(s) + {fd} && InFlight(s', fd) == 0
      && (forall id :: Places(s', id) == Places(s, id) && InFlight(s', id) == InFlight(s, id))
      && (forall d :: LeaversOf(s', d) == LeaversOf(s, d) + One(!watch && d == fd))
  {
    hide InFlight, Places, ClosersOf, LeaversOf, Times;
    var s' := Accepted(s, fd, watch);
    assert SocketOk(s, fd);
    forall x: nat
      ensures SocketOk(s', x) && Places(s', x) == Places(s, x) && ClosersOf(s', x) == ClosersOf(s, x)
      ensures InFlight(s', x) == InFlight(s, x) && LeaversOf(s', x) == LeaversOf(s, x) + One(!watch && x == fd)
    {
      assert SocketOk(s, x);
      AcceptSums(s, fd, watch, x);
    }
  }

  lemma AcceptSums(s: Server, fd: nat, watch: bool, x: nat)
    requires MAIN < |s.threads| && s.threads[MAIN] == Free
    ensures SumsMove(s, Accepted(s, fd, watch), 0, One(!watch && x == fd), x)
  {
    hide OfThreads, OfQueue;
    ThreadSums(s, MAIN, Leaving(fd, []), x);
  }

  lemma ToldKeepsInv(s: Server)
    requires ServerInv(s) && s.threads[MAIN].Leaving?
    ensures var s' := Told(s);
      && ServerInv(s') && Known(s') == Known(s)
      && (forall id :: Places(s', id) == Places(s, id) && InFlight(s', id) == InFlight(s, id))
      && (forall d :: LeaversOf(s', d) == LeaversOf(s, d))
  {
    hide InFlight, Places, ClosersOf, LeaversOf, Times;
    var s' := Told(s);
    forall x: nat
      ensures SocketOk(s', x) && Places(s', x) == Places(s, x) && InFlight(s', x) == InFlight(s, x)
      ensures ClosersOf(s', x) == ClosersOf(s, x) && LeaversOf(s', x) == LeaversOf(s, x)
    {
      assert SocketOk(s, x);
      ThreadSums(s, MAIN, Deciding(s.threads[MAIN].fd, s.threads[MAIN].held), x);
    }
  }

  /** A message may be queued for any socket that is open and not being closed. */
  lemma QueuedKeepsInv(s: Server, fd: nat, data: seq<byte>)
    requires ServerInv(s) && s.idle != [] && fd in Known(s)
    ensures var s' := QueuedToSend(s, fd, data);
      && ServerInv(s') && Known(s') == Known(s)
      && (forall id :: Places(s', id) == Places(s, id) && InFlight(s', id) == InFlight(s, id) + One(id == fd))
      && (forall d :: LeaversOf(s', d) == LeaversOf(s, d))
  {
    hide InFlight, Places, ClosersOf, LeaversOf, Times;
    var s' := QueuedToSend(s, fd, data);
    forall x: nat
      ensures SocketOk(s', x) && Places(s', x) == Places(s, x) && InFlight(s', x) == InFlight(s, x) + One(x == fd)
      ensures ClosersOf(s', x) == ClosersOf(s, x) && LeaversOf(s', x) == LeaversOf(s, x)
    {
      assert SocketOk(s, x) && SocketOk(s, fd);
      QueuedSums(s, fd, data, x);
    }
  }

  lemma QueuedSums(s: Server, fd: nat, data: seq<byte>, x: nat)
    requires s.idle != []
    ensures SumsMove(s, QueuedToSend(s, fd, data), One(x == fd), 0, x)
  {
    hide OfThreads, OfQueue, Times;
    IdleShrinks(s.idle, x);
    QueueGrows(s.sendQ, Msg(s.idle[0], fd, data), Counted, x);
    QueueGrows(s.sendQ, Msg(s.idle[0], fd, data), Held, x);
  }

  /** A socket is closed at once only if none of its messages is in flight. */
  lemma DecideKeepsInv(s: Server)
    requires ServerInv(s) && s.threads[MAIN].Deciding?
    ensures var s', fd := Decided(s), s.threads[MAIN].fd;
      && ServerInv(s') && fd in Known(s) && s'.open == s.open
      && (s'.threads[MAIN].Closing? <==> InFlight(s, fd) == 0)
      && Known(s') == (if s'.threads[MAIN].Closing? then Known(s) - {fd} else Known(s))
      && (forall id :: Places(s', id) == Places(s, id) && InFlight(s', id) == InFlight(s, id))
      && (forall d :: LeaversOf(s', d) == LeaversOf(s, d) - One(d == fd))
  {
    hide InFlight, Places, ClosersOf, LeaversOf, Times;
    var s', fd, held := Decided(s), s.threads[MAIN].fd, s.threads[MAIN].held;
    ThreadSums(s, MAIN, Free, fd);
    assert SocketOk(s, fd);
    forall x: nat
      ensures SocketOk(s', x) && Places(s', x) == Places(s, x) && InFlight(s', x) == InFlight(s, x)
      ensures ClosersOf(s', x) == ClosersOf(s, x) + One(s'.threads[MAIN].Closing? && x == fd)
      ensures LeaversOf(s', x) == LeaversOf(s, x) - One(x == fd)
    {
      assert SocketOk(s, x);
      DecideSums(s, x);
    }
  }

  lemma DecideSums(s: Server, x: nat)
    requires MAIN < |s.threads| && s.threads[MAIN].Deciding?
    ensures var s', fd := Decided(s), s.threads[MAIN].fd;
      && InFlight(s', x) == InFlight(s, x) && Places(s', x) == Places(s, x)
      && ClosersOf(s', x) == ClosersOf(s, x) + One(s'.threads[MAIN].Closing? && x == fd)
      && LeaversOf(s', x) == LeaversOf(s, x) - One(x == fd)
  {
    hide OfThreads, OfQueue, Times;
    ThreadSums(s, MAIN, Decided(s).threads[MAIN], x);
  }

  /** The last message of a disconnected socket closes it, and no other message does. */
  lemma ReleaseKeepsInv(s: Server, t: nat)
    requires ServerInv(s) && DoneWithMessage(s, t)
    ensures var s', fd := Released(s, t), s.threads[t].fd;
      && ServerInv(s') && fd in Known(s) && s'.open == s.open
      && (s'.threads[t].Closing? <==> InFlight(s, fd) == 1 && fd in s.closeRecv && s.closeRecv[fd])
      && Known(s') == (if s'.threads[t].Closing? then Known(s) - {fd} else Known(s))
      && (forall id :: Places(s', id) == Places(s, id) && InFlight(s', id) == InFlight(s, id) - One(id == fd))
      && (forall d :: LeaversOf(s', d) == LeaversOf(s, d))
  {
    hide InFlight, Places, ClosersOf, LeaversOf, Times;
    var s', fd := Released(s, t), s.threads[t].fd;
    ThreadSums(s, t, Free, fd);
    assert SocketOk(s, fd);
    forall x: nat
      ensures SocketOk(s', x) && Places(s', x) == Places(s, x) && InFlight(s', x) == InFlight(s, x) - One(x == fd)
      ensures ClosersOf(s', x) == ClosersOf(s, x) + One(s'.threads[t].Closing? && x == fd)
      ensures LeaversOf(s', x) == LeaversOf(s, x)
    {
      assert SocketOk(s, x);
      ReleaseSums(s, t, x);
    }
  }

  lemma ReleaseSums(s: Server, t: nat, x: nat)
    requires DoneWithMessage(s, t)
    ensures var s', fd := Released(s, t), s.threads[t].fd;
      && InFlight(s', x) == InFlight(s, x) - One(x == fd) && Places(s', x) == Places(s, x)
      && ClosersOf(s', x) == ClosersOf(s, x) + One(s'.threads[t].Closing? && x == fd) && LeaversOf(s', x) == LeaversOf(s, x)
  {
    hide OfThreads, OfQueue, Times;
    ThreadSums(s, t, Released(s, t).threads[t], x);
    if s.threads[t].Handled? {
      HeldOnce(s.threads[t].id, x);
    } else {
      assert Times([], x) == 0 by { NothingHeld(x); }
    }
  }

  lemma NothingHeld(x: nat)
    ensures Times([], x) == 0
  {
  }

  lemma CloseKeepsInv(s: Server, t: nat)
    requires ServerInv(s) && t < |s.threads| && s.threads[t].Closing?
    ensures var s', fd := Closed(s, t), s.threads[t].fd;
      && ServerInv(s') && fd in s.open && fd !in Known(s) && Known(s') == Known(s) && InFlight(s, fd) == 0
      && (forall id :: Places(s', id) == Places(s, id) && InFlight(s', id) == InFlight(s, id))
      && (forall d :: LeaversOf(s', d) == LeaversOf(s, d))
  {
    hide InFlight, Places, ClosersOf, LeaversOf, Times;
    var s', fd, held := Closed(s, t), s.threads[t].fd, s.threads[t].held;
    ThreadSums(s, t, Returning(held), fd);
    assert SocketOk(s, fd);
    forall x: nat
      ensures SocketOk(s', x) && Places(s', x) == Places(s, x) && InFlight(s', x) == InFlight(s, x)
      ensures ClosersOf(s', x) == ClosersOf(s, x) - One(x == fd) && LeaversOf(s', x) == LeaversOf(s, x)
    {
      assert SocketOk(s, x);
      CloseSums(s, t, x);
    }
  }

  lemma CloseSums(s: Server, t: nat, x: nat)
    requires t < |s.threads| && s.threads[t].Closing?
    ensures var s', fd := Closed(s, t), s.threads[t].fd;
      && InFlight(s', x) == InFlight(s, x) && Places(s', x) == Places(s, x)
      && ClosersOf(s', x) == ClosersOf(s, x) - One(x == fd) && LeaversOf(s', x) == LeaversOf(s, x)
  {
    hide OfThreads, OfQueue, Times;
    ThreadSums(s, t, Closed(s, t).threads[t], x);
  }
}
