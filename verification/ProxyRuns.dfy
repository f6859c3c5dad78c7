/** What the invariants of the proxy mean for every run of it. */
module ProxyRuns {
  import opened Collections
  import opened Lifetime
  import opened Proxy

  ghost predicate ServerStart(s: Server) {
    && s.open == {} && s.watched == {} && s.handleQ == [] && s.sendQ == []
    && |s.threads| > SENDER && (forall t :: 0 <= t < |s.threads| ==> s.threads[t] == Free)
    && NoRepeats(s.idle)
  }

  ghost predicate Start(s: Sys) {
    ServerStart(s.http) && ServerStart(s.vnc) && s.clients == map[] && s.sessions == map[] && s.agent == None && s.looked == map[] && s.log == []
  }

  /**
   * All the lookups hit that the code makes without a check, and the client that a thread has
   * looked up before is still the one that is kept for its socket when the thread uses it.
   */
  predicate Hits(s: Sys, a: Action) {
    && (a == Tell(Http) && |s.http.threads| > SENDER && s.http.threads[MAIN].Leaving? ==> s.http.threads[MAIN].fd in s.clients)
    && (a.LookUp? && a.t < |s.http.threads| && s.http.threads[a.t].Handling? ==> s.http.threads[a.t].fd in s.clients)
    && (a.ForwardRequest? && a.t < |s.http.threads| && s.http.threads[a.t].Handling? && a.t in s.looked ==>
          var fd := s.http.threads[a.t].fd; fd in s.clients && s.clients[fd].conn == s.looked[a.t])
    && (a.ReturnReply? ==> s.agent.Some? && (a.fd in s.sessions ==> a.fd in s.clients))
    && (a.ReturnReply? && a.t < |s.vnc.threads| && s.vnc.threads[a.t].Handling? ==> s.agent.Some? && s.agent.value.fd == s.vnc.threads[a.t].fd)
  }

  /** A run takes allowed actions; nothing is known of the state after a lookup that did not hit. */
  ghost predicate IsRun(states: seq<Sys>, actions: seq<Action>) {
    && |states| == |actions| + 1 && Start(states[0])
    && forall i :: 0 <= i < |actions| ==>
         Allowed(states[i], actions[i]) && (Hits(states[i], actions[i]) ==> states[i + 1] == After(states[i], actions[i]))
  }

  ghost predicate Inv(s: Sys) {
    Core(s) && StagesOk(s) && RoutesOk(s) && LookedOk(s)
  }

  lemma {:induction false} NothingSummed(ts: seq<Thread>, k: Kind, x: nat)
    requires forall t :: 0 <= t < |ts| ==> ts[t] == Free
    ensures OfThreads(ts, k, x) == 0
  {
    if ts != [] {
      NothingSummed(ts[1..], k, x);
    }
  }

  lemma StartInv(s: Sys)
    requires Start(s)
    ensures Inv(s)
  {
    forall x: nat
      ensures SocketOk(s.http, x) && SocketOk(s.vnc, x)
    {
      forall k
        ensures OfThreads(s.http.threads, k, x) == 0 && OfThreads(s.vnc.threads, k, x) == 0
      {
        NothingSummed(s.http.threads, k, x);
        NothingSummed(s.vnc.threads, k, x);
      }
    }
  }

  lemma AlwaysHits(s: Sys, a: Action)
    requires Core(s) && LookedOk(s) && Allowed(s, a)
    ensures Hits(s, a)
  {
    hide ServerInv, InFlight, MapsOk;
    LookupsHit(s, a);
    if a.ReturnReply? {
      ThreadsSocketIsKnown(s.vnc, a.t);
      AgentOutlivesMessages(s, s.vnc.threads[a.t].fd);
    }
  }

  lemma StepKeepsAll(s: Sys, a: Action)
    requires Inv(s) && Allowed(s, a)
    ensures Hits(s, a) && Inv(After(s, a)) && PoolsKept(s, After(s, a))
  {
    hide Core, StagesOk, RoutesOk, LookedOk;
    AlwaysHits(s, a);
    ActionKeepsCore(s, a);
    ActionFits(s, a);
    FittingStages(s, After(s, a));
    ActionKeepsRoutes(s, a);
    ActionKeepsLooked(s, a);
  }

  lemma {:induction false} RunKeepsInv(states: seq<Sys>, actions: seq<Action>, i: nat)
    requires IsRun(states, actions) && i < |states|
    ensures Inv(states[i]) && PoolsKept(states[0], states[i])
    decreases i
  {
    hide Inv, Start, Hits, After;
    if i == 0 {
      StartInv(states[0]);
    } else {
      RunKeepsInv(states, actions, i - 1);
      StepKeepsAll(states[i - 1], actions[i - 1]);
    }
  }

  /** In every run, every lookup hits, and what a thread uses was not released since it looked it up. */
  lemma NoReleasedClientIsUsed(states: seq<Sys>, actions: seq<Action>, i: nat)
    requires IsRun(states, actions) && i < |actions|
    ensures Hits(states[i], actions[i])
  {
    hide Inv, Start, Hits, After;
    RunKeepsInv(states, actions, i);
    StepKeepsAll(states[i], actions[i]);
  }

  /** A thread works for a request or a packet of the socket. */
  predicate WorksFor(s: Server, t: nat, fd: nat) {
    t < |s.threads| && (s.threads[t].Handling? || s.threads[t].Handled?) && s.threads[t].fd == fd
  }

  /** As long as a thread works for a request, its socket's client stays the same one. */
  lemma {:induction false} ClientStaysWhileUsed(states: seq<Sys>, actions: seq<Action>, i: nat, j: nat, t: nat, fd: nat)
    requires IsRun(states, actions) && i <= j < |states|
    requires forall k :: i <= k <= j ==> WorksFor(states[k].http, t, fd)
    ensures fd in states[i].clients && fd in states[j].clients && states[j].clients[fd].conn == states[i].clients[fd].conn
    decreases j
  {
    hide Start, After, ServerInv, StagesOk, RoutesOk, LookedOk, Hits;
    RunKeepsInv(states, actions, j);
    ThreadsSocketIsKnown(states[j].http, t);
    if i < j {
      ClientStaysWhileUsed(states, actions, i, j - 1, t, fd);
      RunKeepsInv(states, actions, j - 1);
      StepKeepsAll(states[j - 1], actions[j - 1]);
      ActionKeepsConns(states[j - 1], actions[j - 1], fd);
    }
  }

  /** As long as a thread works for a packet of the agent, the agent stays the same connection. */
  lemma {:induction false} AgentStaysWhileUsed(states: seq<Sys>, actions: seq<Action>, i: nat, j: nat, t: nat, fd: nat)
    requires IsRun(states, actions) && i <= j < |states|
    requires forall k :: i <= k <= j ==> WorksFor(states[k].vnc, t, fd)
    ensures states[i].agent.Some? && states[j].agent.Some?
    ensures states[j].agent.value.fd == fd && states[j].agent.value.conn == states[i].agent.value.conn
    decreases j
  {
    hide Start, After, ServerInv, StagesOk, RoutesOk, LookedOk, Hits, InFlight;
    RunKeepsInv(states, actions, j);
    ThreadsSocketIsKnown(states[j].vnc, t);
    AgentOutlivesMessages(states[j], fd);
    if i < j {
      AgentStaysWhileUsed(states, actions, i, j - 1, t, fd);
      RunKeepsInv(states, actions, j - 1);
      StepKeepsAll(states[j - 1], actions[j - 1]);
      ActionKeepsConns(states[j - 1], actions[j - 1], fd);
    }
  }

  /** The count of every open socket is the number of its messages that are queued or in a thread's hands. */
  lemma CountsAreExact(states: seq<Sys>, actions: seq<Action>, i: nat, which: Which, fd: nat)
    requires IsRun(states, actions) && i < |states|
    ensures var s := Of(states[i], which);
      if fd in s.open then fd in s.count && s.count[fd] == InFlight(s, fd) else InFlight(s, fd) == 0
  {
    hide Start, After;
    RunKeepsInv(states, actions, i);
    assert SocketOk(Of(states[i], which), fd);
  }

  /** In every run, each accepted socket is released by the observer once, then closed once, and only then accepted again. */
  lemma ReleasedThenClosedOnce(states: seq<Sys>, actions: seq<Action>, i: nat, which: Which, fd: nat)
    requires IsRun(states, actions) && i < |states|
    ensures StageOf(states[i].log, which, fd) != Misused
    ensures StageOf(states[i].log, which, fd) == Live <==> fd in Known(Of(states[i], which))
    ensures StageOf(states[i].log, which, fd) == Unused <==> fd !in Of(states[i], which).open
  {
    hide Start, After;
    RunKeepsInv(states, actions, i);
  }

  /** The observer releases a socket, and the socket is closed, only while no message of it is in flight. */
  lemma ReleasedOnlyWhenDrained(states: seq<Sys>, actions: seq<Action>, i: nat, which: Which, fd: nat)
    requires IsRun(states, actions) && i < |states| && fd in Of(states[i], which).open
    requires StageOf(states[i].log, which, fd) == LetGo
    ensures InFlight(Of(states[i], which), fd) == 0
  {
    hide Start, After;
    RunKeepsInv(states, actions, i);
    assert SocketOk(Of(states[i], which), fd);
  }

  /** No disconnected socket is forgotten: it is being worked on, or one of its messages is in flight. */
  lemma NoSocketIsForgotten(states: seq<Sys>, actions: seq<Action>, i: nat, which: Which, fd: nat)
    requires IsRun(states, actions) && i < |states| && fd in Of(states[i], which).open
    ensures var s := Of(states[i], which);
      || fd in s.watched
      || (exists t :: 0 <= t < |s.threads| && (s.threads[t].Leaving? || s.threads[t].Deciding? || s.threads[t].Closing?) && s.threads[t].fd == fd)
      || (fd in s.closeRecv && s.closeRecv[fd] && InFlight(s, fd) > 0)
  {
    hide Start, After;
    RunKeepsInv(states, actions, i);
    var s := Of(states[i], which);
    assert SocketOk(s, fd);
    if LeaversOf(s, fd) > 0 {
      var t := SomeThread(s.threads, Leavers, fd);
    } else if ClosersOf(s, fd) > 0 {
      var t := SomeThread(s.threads, Closers, fd);
    }
  }

  lemma {:induction false} SomeThread(ts: seq<Thread>, k: Kind, x: nat) returns (t: nat)
    requires OfThreads(ts, k, x) > 0
    ensures t < |ts| && OfThread(ts[t], k, x) > 0
    decreases |ts|
  {
    if OfThread(ts[0], k, x) > 0 {
      t := 0;
    } else {
      t := SomeThread(ts[1..], k, x);
      t := t + 1;
    }
  }

  /** When all threads are free and all queues empty, every socket that is still open is being listened to. */
  lemma NoneLeftBehind(states: seq<Sys>, actions: seq<Action>, i: nat, which: Which)
    requires IsRun(states, actions) && i < |states|
    requires var s := Of(states[i], which); s.handleQ == [] && s.sendQ == [] && forall t :: 0 <= t < |s.threads| ==> s.threads[t] == Free
    ensures Of(states[i], which).open == Of(states[i], which).watched
  {
    hide Start, After;
    var s := Of(states[i], which);
    RunKeepsInv(states, actions, i);
    forall fd: nat
      ensures fd in s.open <==> fd in s.watched
    {
      assert SocketOk(s, fd);
      NothingSummed(s.threads, Counted, fd);
      NothingSummed(s.threads, Closers, fd);
      NothingSummed(s.threads, Leavers, fd);
    }
  }

  /** The clients are exactly the open HTTP sockets that were not released, and every session has its client. */
  lemma ClientsAreOpenSockets(states: seq<Sys>, actions: seq<Action>, i: nat)
    requires IsRun(states, actions) && i < |states|
    ensures states[i].sessions.Keys <= states[i].clients.Keys <= states[i].http.open
    ensures forall fd: nat :: fd in states[i].clients <==> StageOf(states[i].log, Http, fd) == Live
  {
    hide Start, After;
    RunKeepsInv(states, actions, i);
    forall fd: nat
      ensures fd in states[i].clients <==> StageOf(states[i].log, Http, fd) == Live
    {
      ReleasedThenClosedOnce(states, actions, i, Http, fd);
    }
  }

  /** Every message of a pool is in exactly one place, in every state of every run. */
  lemma MessagesAreConserved(states: seq<Sys>, actions: seq<Action>, i: nat, which: Which, id: nat)
    requires IsRun(states, actions) && i < |states|
    ensures Places(Of(states[i], which), id) == One(id in Of(states[0], which).idle)
  {
    hide After;
    RunKeepsInv(states, actions, i);
    var s := Of(states[0], which);
    NothingSummed(s.threads, Held, id);
    OnceInIdle(s.idle, id);
  }

  lemma {:induction false} OnceInIdle(idle: seq<nat>, id: nat)
    requires NoRepeats(idle)
    ensures Times(idle, id) == One(id in idle)
    decreases |idle|
  {
    if idle != [] {
      IdleShrinks(idle, id);
      OnceInIdle(idle[1..], id);
    }
  }

  /** Every reply goes to a connection that forwarded a request of its number and was not released since. */
  lemma RepliesReachTheirClient(states: seq<Sys>, actions: seq<Action>, i: nat, k: nat)
    requires IsRun(states, actions) && i < |states|
    requires k < |states[i].log| && states[i].log[k].Reply?
    ensures var log, e := states[i].log, states[i].log[k];
      StillServed(log, e.fd, e.conn, k) && Asked(log, e.fd, e.conn, e.seqNo, k)
  {
    hide Start, After;
    RunKeepsInv(states, actions, i);
    assert ReplyOk(states[i].log, k);
  }

  /** One agent connection is never given the same request number twice. */
  lemma RequestNumbersAreUnique(states: seq<Sys>, actions: seq<Action>, i: nat, j: nat, k: nat)
    requires IsRun(states, actions) && i < |states| && j < |states[i].log| && k < |states[i].log|
    requires var log := states[i].log;
      log[j].Forward? && log[k].Forward? && log[j].agent == log[k].agent && log[j].seqNo == log[k].seqNo
    ensures j == k
  {
    hide Start, After;
    RunKeepsInv(states, actions, i);
    assert Growing(states[i].log);
  }

  /**
   * If the client was accepted after the agent that answers, the reply answers the one request of
   * that number that this agent was given, and that request was the client's own.
   */
  lemma RepliesAnswerTheirRequest(states: seq<Sys>, actions: seq<Action>, i: nat, k: nat)
    requires IsRun(states, actions) && i < |states|
    requires k < |states[i].log| && states[i].log[k].Reply? && states[i].log[k].agent < states[i].log[k].conn
    ensures var log, e := states[i].log, states[i].log[k];
      && (exists j: nat :: e.conn < j < k && log[j].Forward? && log[j].task.Request? && log[j] == Event.Forward(e.fd, e.conn, e.agent, e.seqNo, log[j].task))
      && forall j: nat :: j < |log| && log[j].Forward? && log[j].agent == e.agent && log[j].seqNo == e.seqNo ==> log[j].fd == e.fd && log[j].conn == e.conn
  {
    hide Start, After;
    RunKeepsInv(states, actions, i);
    var log, e := states[i].log, states[i].log[k];
    assert ReplyOk(log, k) && Growing(log);
    var j: nat :| e.conn < j < k && IsRequest(log, j, e.fd, e.conn, e.seqNo);
    assert log[j] == Event.Forward(e.fd, e.conn, e.agent, e.seqNo, log[j].task);
  }
}
