/** Which requests are answered: a request that was forwarded is kept until its client is released, and its reply is queued. */
module Answers {
  import opened Bytes
  import opened Lifetime
  import opened Proxy
  import opened ProxyRuns
  import opened Traffic

  /** A command can be queued for the agent. */
  predicate AgentTakes(s: Sys) {
    s.agent.Some? && s.agent.value.online && s.vnc.idle != []
  }

  /** The task is kept under the number in the socket's session. */
  predicate Kept(s: Sys, fd: nat, seqNo: int, task: Task) {
    fd in s.sessions && seqNo in s.sessions[fd] && s.sessions[fd][seqNo] == task
  }

  /** The number is taken in the socket's session. */
  predicate HasTask(s: Sys, fd: nat, seqNo: int) {
    fd in s.sessions && seqNo in s.sessions[fd]
  }

  lemma SendLogsAndKeeps(s: Sys, fd: nat, conn: nat, task: Task, needReturn: bool)
    ensures var s' := SendToAgent(s, fd, conn, task, needReturn);
      if AgentTakes(s) then
        && s'.log == s.log + [Forward(fd, conn, s.agent.value.conn, s.agent.value.nextSeq, task)]
        && (needReturn && !HasTask(s, fd, s.agent.value.nextSeq) ==> Kept(s', fd, s.agent.value.nextSeq, task))
        && (needReturn ==> HasTask(s', fd, s.agent.value.nextSeq))
        && (!needReturn ==> (forall d, q :: HasTask(s', d, q) <==> HasTask(s, d, q)))
      else s' == s
    ensures var s' := SendToAgent(s, fd, conn, task, needReturn);
      s'.clients == s.clients && forall d, q :: HasTask(s, d, q) ==> Kept(s', d, q, s.sessions[d][q])
  {
    hide QueuedToSend, CommandOf;
  }

  /** A request that is forwarded is logged with the client that was looked up and its bytes, and is kept. */
  lemma ForwardLogsAndKeeps(s: Sys, t: nat)
    requires Core(s) && Allowed(s, ForwardRequest(t))
    ensures var s', fd, request := After(s, ForwardRequest(t)), s.http.threads[t].fd, Request(s.http.threads[t].data);
      if AgentTakes(s) then
        var q := s.agent.value.nextSeq;
        && s'.log == s.log + [Forward(fd, s.looked[t], s.agent.value.conn, q, request)]
        && HasTask(s', fd, q) && (!HasTask(s, fd, q) ==> Kept(s', fd, q, request))
      else s'.log == s.log && s'.sessions == s.sessions
    ensures After(s, ForwardRequest(t)).clients == s.clients
  {
    hide Core, Apply, SendToAgent;
    var r := s.(http := Apply(s.http, Parsed(t)), looked := s.looked - {t});
    SendLogsAndKeeps(r, s.http.threads[t].fd, s.looked[t], Request(s.http.threads[t].data), true);
  }

  /** The notice that a client has gone is logged and not kept. */
  lemma NoticeLogs(s: Sys)
    requires Core(s) && Allowed(s, Tell(Http))
    ensures (LookupsHit(s, Tell(Http)); var s', fd := After(s, Tell(Http)), s.http.threads[MAIN].fd;
      && (if AgentTakes(s) then s'.log == s.log + [Forward(fd, s.clients[fd].conn, s.agent.value.conn, s.agent.value.nextSeq, Notice)] else s'.log == s.log)
      && forall d, q :: HasTask(s', d, q) <==> HasTask(s, d, q))
  {
    hide Core, Told, SendToAgent;
    LookupsHit(s, Tell(Http));
    var fd := s.http.threads[MAIN].fd;
    var r := s.(http := Told(s.http), clients := s.clients[fd := s.clients[fd].(online := false)]);
    SendLogsAndKeeps(r, fd, s.clients[fd].conn, Notice, false);
  }

  /** A reply is queued just if its number is kept and a message is free; otherwise nothing changes. */
  lemma ReplyIsQueued(s: Sys, a: Action)
    requires Core(s) && Allowed(s, a) && a.ReturnReply?
    ensures (LookupsHit(s, a); var s', data := After(s, a), if a.param == [] then a.left else a.param;
      if HasTask(s, a.fd, a.seqNo) && s.http.idle != [] then
        && s'.log == s.log + [Reply(a.fd, s.clients[a.fd].conn, s.agent.value.conn, a.seqNo, data)]
        && Pieces(s'.http.sendQ) == Pieces(s.http.sendQ) + [Piece(a.fd, data)]
      else s' == s)
  {
    hide Core, QueuedToSend, Pieces;
    LookupsHit(s, a);
    if s.http.idle != [] {
      QueuedInward(s.http, a.fd, ReplyData(a.param, a.left));
    }
  }

  /** The client is served, and the task kept. */
  predicate Serves(s: Sys, fd: nat, conn: nat, seqNo: int, task: Task) {
    fd in s.clients && s.clients[fd].conn == conn && Kept(s, fd, seqNo, task)
  }

  lemma TellServes(s: Sys, which: Which, fd: nat, conn: nat, seqNo: int, task: Task)
    requires Core(s) && Allowed(s, Tell(which)) && Serves(s, fd, conn, seqNo, task)
    ensures (LookupsHit(s, Tell(which)); Serves(After(s, Tell(which)), fd, conn, seqNo, task))
  {
    hide Core, Told, SendToAgent;
    LookupsHit(s, Tell(which));
    if which == Http {
      var gone := s.http.threads[MAIN].fd;
      var r := s.(http := Told(s.http), clients := s.clients[gone := s.clients[gone].(online := false)]);
      SendLogsAndKeeps(r, gone, s.clients[gone].conn, Notice, false);
    }
  }

  lemma ForwardServes(s: Sys, t: nat, fd: nat, conn: nat, seqNo: int, task: Task)
    requires Core(s) && Allowed(s, ForwardRequest(t)) && Serves(s, fd, conn, seqNo, task)
    ensures Serves(After(s, ForwardRequest(t)), fd, conn, seqNo, task)
  {
    hide Core, Apply, SendToAgent;
    var r := s.(http := Apply(s.http, Parsed(t)), looked := s.looked - {t});
    SendLogsAndKeeps(r, s.http.threads[t].fd, s.looked[t], Request(s.http.threads[t].data), true);
  }

  /** An action that does not release the client leaves its tasks as they are. */
  lemma ActionServes(s: Sys, a: Action, fd: nat, conn: nat, seqNo: int, task: Task)
    requires Core(s) && Allowed(s, a) && Serves(s, fd, conn, seqNo, task)
    ensures (LookupsHit(s, a); var s' := After(s, a);
      s'.log == s.log + [OnClose(Http, fd)] || Serves(s', fd, conn, seqNo, task))
  {
    hide Core, Accepted, Told, Decided, Released, Closed, QueuedToSend, Apply, SendToAgent, AfterTell;
    LookupsHit(s, a);
    match a {
      case Tell(which) =>
        TellServes(s, which, fd, conn, seqNo, task);
      case ForwardRequest(t) =>
        ForwardServes(s, t, fd, conn, seqNo, task);
      case _ =>
    }
  }

  lemma ActionExtendsLog(s: Sys, a: Action)
    requires Core(s) && Allowed(s, a)
    ensures (LookupsHit(s, a); s.log <= After(s, a).log)
  {
    hide Core, SameSockets, EventFits, After;
    ActionFits(s, a);
  }

  lemma {:induction false} LogGrows(states: seq<Sys>, actions: seq<Action>, i: nat, j: nat)
    requires IsRun(states, actions) && i <= j <= |actions|
    ensures states[i].log <= states[j].log
    decreases j
  {
    hide Core, StagesOk, RoutesOk, LookedOk, Start, Hits, After;
    if i < j {
      LogGrows(states, actions, i, j - 1);
      RunKeepsInv(states, actions, j - 1);
      StepKeepsAll(states[j - 1], actions[j - 1]);
      ActionExtendsLog(states[j - 1], actions[j - 1]);
    }
  }

  lemma NotInShorter(log: seq<Event>, longer: seq<Event>, n: nat, e: Event)
    requires n <= |log| && log <= longer && e !in longer[n..]
    ensures e !in log[n..] && longer != log + [e]
  {
    var more := longer[|log|..];
    assert longer[n..] == log[n..] + more;
    assert longer == log + [e] ==> more == [e];
  }

  /** A kept task stays until its client is released. */
  lemma {:induction false} TaskIsKept(states: seq<Sys>, actions: seq<Action>, i: nat, j: nat, fd: nat, conn: nat, seqNo: int, task: Task)
    requires IsRun(states, actions) && i <= j <= |actions| && Serves(states[i], fd, conn, seqNo, task)
    requires |states[i].log| <= |states[j].log| && OnClose(Http, fd) !in states[j].log[|states[i].log|..]
    ensures Serves(states[j], fd, conn, seqNo, task)
    decreases j
  {
    hide Core, StagesOk, RoutesOk, LookedOk, Start, Hits, After, Serves;
    if i < j {
      LogGrows(states, actions, i, j - 1);
      LogGrows(states, actions, j - 1, j);
      NotInShorter(states[j - 1].log, states[j].log, |states[i].log|, OnClose(Http, fd));
      TaskIsKept(states, actions, i, j - 1, fd, conn, seqNo, task);
      RunKeepsInv(states, actions, j - 1);
      StepKeepsAll(states[j - 1], actions[j - 1]);
      ActionServes(states[j - 1], actions[j - 1], fd, conn, seqNo, task);
    }
  }

  /**
   * A request that was forwarded to the agent is answered: as long as its client was not released,
   * what comes back under its number is queued for that client, if a message is free.
   */
  lemma RequestsAreAnswered(states: seq<Sys>, actions: seq<Action>, i: nat, j: nat)
    requires IsRun(states, actions) && i < j < |actions|
    requires actions[i].ForwardRequest? && AgentTakes(states[i]) && actions[j].ReturnReply? && states[j].http.idle != []
    requires actions[i].t < |states[i].http.threads| && states[i].http.threads[actions[i].t].Handling? && actions[i].t in states[i].looked
    requires actions[j].fd == states[i].http.threads[actions[i].t].fd && actions[j].seqNo == states[i].agent.value.nextSeq
    requires |states[i].log| <= |states[j].log| && OnClose(Http, actions[j].fd) !in states[j].log[|states[i].log|..]
    ensures var s, a := states[i], actions[j];
      var conn, data := s.looked[actions[i].t], if a.param == [] then a.left else a.param;
      && states[i + 1].log == s.log + [Forward(a.fd, conn, s.agent.value.conn, a.seqNo, Request(s.http.threads[actions[i].t].data))]
      && states[j].agent.Some? && states[j + 1].log == states[j].log + [Reply(a.fd, conn, states[j].agent.value.conn, a.seqNo, data)]
      && Pieces(states[j + 1].http.sendQ) == Pieces(states[j].http.sendQ) + [Piece(a.fd, data)]
  {
    hide Core, StagesOk, RoutesOk, Start, Hits, After, Pieces;
    var t, a := actions[i].t, actions[j];
    RunKeepsInv(states, actions, i);
    StepKeepsAll(states[i], actions[i]);
    ForwardLogsAndKeeps(states[i], t);
    var s' := states[i + 1];
    LogGrows(states, actions, i + 1, j);
    assert OnClose(Http, a.fd) !in states[j].log[|s'.log|..] by {
      assert states[j].log[|s'.log|..] == states[j].log[|states[i].log|..][1..];
    }
    TaskIsKept(states, actions, i + 1, j, a.fd, states[i].looked[t], a.seqNo, s'.sessions[a.fd][a.seqNo]);
    RunKeepsInv(states, actions, j);
    StepKeepsAll(states[j], actions[j]);
    LookupsHit(states[j], a);
    ReplyIsQueued(states[j], a);
  }

  /**
   * The number that a notice was given is kept in no session, unless a session has a request of the
   * same number that went to another agent.
   */
  lemma NoticesAreNotKept(states: seq<Sys>, actions: seq<Action>, i: nat, j: nat, fd: nat)
    requires IsRun(states, actions) && i < j <= |actions| && actions[i] == Tell(Http) && AgentTakes(states[i])
    requires HasTask(states[j], fd, states[i].agent.value.nextSeq)
    ensures var log := states[j].log;
      fd in states[j].clients && exists k: nat :: IsRequest(log, k, fd, states[j].clients[fd].conn, states[i].agent.value.nextSeq) && log[k].agent != states[i].agent.value.conn
  {
    hide Core, StagesOk, LookedOk, Start, Hits, After, StillServed, SameAgent;
    RunKeepsInv(states, actions, i);
    StepKeepsAll(states[i], actions[i]);
    NoticeLogs(states[i]);
    LogGrows(states, actions, i + 1, j);
    RunKeepsInv(states, actions, j);
    SessionsHaveClients(states[j], fd);
    var log, n, q := states[j].log, |states[i].log|, states[i].agent.value.nextSeq;
    assert log[n] == states[i + 1].log[n];
    assert ClientLogged(states[j], fd);
    var k: nat :| states[j].clients[fd].conn < k < |log| && IsRequest(log, k, fd, states[j].clients[fd].conn, q);
    assert Growing(log);
  }

  lemma SessionsHaveClients(s: Sys, fd: nat)
    requires Core(s)
    ensures fd in s.sessions ==> fd in s.clients
  {
    hide ServerInv;
  }

  // The agent is on line until its connection is lost.

  /** The observer is told that the connection is lost. */
  predicate IsLost(s: Sys, a: Action, fd: nat) {
    a == Tell(Vnc) && MAIN < |s.vnc.threads| && s.vnc.threads[MAIN].Leaving? && s.vnc.threads[MAIN].fd == fd
  }

  lemma SendKeepsAgent(s: Sys, fd: nat, conn: nat, task: Task, needReturn: bool)
    ensures var s' := SendToAgent(s, fd, conn, task, needReturn);
      && s'.agent.Some? == s.agent.Some? && |s'.log| >= |s.log|
      && (s.agent.Some? ==> s'.agent.value == s.agent.value.(nextSeq := s'.agent.value.nextSeq))
  {
    hide QueuedToSend, CommandOf, KeepTask;
  }

  /** An action takes the agent off line just if its connection is lost, and brings no connection back. */
  lemma ActionKeepsOnline(s: Sys, a: Action)
    requires Core(s) && Allowed(s, a)
    ensures (LookupsHit(s, a); var s' := After(s, a);
      && |s'.log| >= |s.log|
      && (s.agent.Some? && s'.agent.Some? ==>
            && s'.agent.value.fd == s.agent.value.fd && s'.agent.value.conn == s.agent.value.conn
            && (s'.agent.value.online <==> s.agent.value.online && !IsLost(s, a, s.agent.value.fd)))
      && (s.agent.None? && s'.agent.Some? ==> a == AcceptOn(Vnc, s'.agent.value.fd, a.watcherFree) && s'.agent.value.online && s'.agent.value.conn == |s.log|))
  {
    hide Core, Accepted, Told, Decided, Released, Closed, QueuedToSend, Apply, SendToAgent;
    LookupsHit(s, a);
    if a == Tell(Http) {
      var fd := s.http.threads[MAIN].fd;
      SendKeepsAgent(s.(http := Told(s.http), clients := s.clients[fd := s.clients[fd].(online := false)]), fd, s.clients[fd].conn, Notice, false);
    } else if a.ForwardRequest? {
      SendKeepsAgent(s.(http := Apply(s.http, Parsed(a.t)), looked := s.looked - {a.t}), s.http.threads[a.t].fd, s.looked[a.t], Request(s.http.threads[a.t].data), true);
    }
  }

  /** An agent that was accepted is on line until the loss of its connection is told, and never again after that. */
  lemma {:induction false} AgentIsOnline(states: seq<Sys>, actions: seq<Action>, i: nat, j: nat, fd: nat, watcherFree: bool)
    requires IsRun(states, actions) && i < j <= |actions|
    requires actions[i] == AcceptOn(Vnc, fd, watcherFree) && states[i].agent.None?
    requires states[j].agent.Some? && states[j].agent.value.conn == |states[i].log|
    ensures states[j].agent.value.fd == fd
    ensures states[j].agent.value.online <==> forall k :: i < k < j ==> !IsLost(states[k], actions[k], fd)
    decreases j
  {
    hide Core, StagesOk, RoutesOk, LookedOk, Start, Hits, After, IsLost;
    RunKeepsInv(states, actions, j - 1);
    StepKeepsAll(states[j - 1], actions[j - 1]);
    ActionKeepsOnline(states[j - 1], actions[j - 1]);
    if j > i + 1 {
      LogGrows(states, actions, i + 1, j - 1);
      AcceptIsLogged(states[i], fd, watcherFree);
      RunKeepsInv(states, actions, i);
      StepKeepsAll(states[i], actions[i]);
      AgentIsOnline(states, actions, i, j - 1, fd, watcherFree);
    }
  }

  lemma AcceptIsLogged(s: Sys, fd: nat, watcherFree: bool)
    requires Allowed(s, AcceptOn(Vnc, fd, watcherFree))
    ensures |After(s, AcceptOn(Vnc, fd, watcherFree)).log| == |s.log| + 1
  {
    hide Accepted;
  }

  /** A new client is on line, and goes off line just when the observer is told that its connection is lost. */
  lemma ClientIsOnline(s: Sys, a: Action, fd: nat)
    requires Core(s) && Allowed(s, a)
    ensures (LookupsHit(s, a); var s' := After(s, a);
      fd in s'.clients ==>
        if fd in s.clients then s'.clients[fd].online <==> s.clients[fd].online && !(a == Tell(Http) && s.http.threads[MAIN].fd == fd)
        else s'.clients[fd].online)
  {
    hide Core, Accepted, Told, Decided, Released, Closed, QueuedToSend, Apply, SendToAgent;
    LookupsHit(s, a);
    if a == Tell(Http) {
      var gone := s.http.threads[MAIN].fd;
      SendLogsAndKeeps(s.(http := Told(s.http), clients := s.clients[gone := s.clients[gone].(online := false)]), gone, s.clients[gone].conn, Notice, false);
    } else if a.ForwardRequest? {
      SendLogsAndKeeps(s.(http := Apply(s.http, Parsed(a.t)), looked := s.looked - {a.t}), s.http.threads[a.t].fd, s.looked[a.t], Request(s.http.threads[a.t].data), true);
    }
  }
}
