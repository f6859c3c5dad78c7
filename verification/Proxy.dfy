/**
 * The proxy between its two servers: HTTP clients on one, the agent on the other. The maps of
 * clients and sessions, and the one agent, must outlive the messages that refer to them.
 */
module Proxy {
  import opened Bytes
  import opened Lifetime
  import Command

  datatype Option<T> = None | Some(value: T)

  datatype Which = Http | Vnc

  /** What is sent to the agent for a client: a request, or the notice that the client has gone. */
  datatype Task = Request(data: seq<byte>) | Notice

  /** What the outside sees of a connection, and of the requests and replies. */
  datatype Event =
    | Accept(which: Which, fd: nat)
    /** The observer released what it kept for the connection. */
    | OnClose(which: Which, fd: nat)
    | CloseSocket(which: Which, fd: nat)
    /** A command was queued for the agent. Connections are named by the position of their accept in the log. */
    | Forward(fd: nat, conn: nat, agent: nat, seqNo: int, task: Task)
    /** An answer that came from the agent was queued for a client. */
    | Reply(fd: nat, conn: nat, agent: nat, seqNo: int, data: seq<byte>)

  datatype Client = Client(conn: nat, online: bool)

  datatype Agent = Agent(fd: nat, conn: nat, online: bool, nextSeq: int)

  datatype Sys = Sys(
    http: Server,
    vnc: Server,
    clients: map<nat, Client>,
    /** The requests of every session, by number. */
    sessions: map<nat, map<int, Task>>,
    agent: Option<Agent>,
    /** The clients that handler threads have looked up and not used yet, named by the position of their accept. */
    looked: map<nat, nat>,
    log: seq<Event>
  )

  datatype Action =
    | Local(which: Which, step: Step)
    | AcceptOn(which: Which, fd: nat, watcherFree: bool)
    | Tell(which: Which)
    | Decide(which: Which)
    /** A handler thread looks up the client of an HTTP request; the lock is given back before the client is used. */
    | LookUp(t: nat)
    /** The thread forwards the request for the client that it looked up. */
    | ForwardRequest(t: nat)
    /**
     * A handler thread found a whole command of the agent that answers request `seqNo` of socket
     * `fd`; `left` is what the next free message still holds.
     */
    | ReturnReply(t: nat, fd: nat, seqNo: int, param: seq<byte>, left: seq<byte>)
    | Release(which: Which, t: nat)
    | CloseFd(which: Which, t: nat)

  function Of(s: Sys, which: Which): Server {
    if which == Http then s.http else s.vnc
  }

  function With(s: Sys, which: Which, server: Server): Sys {
    if which == Http then s.(http := server) else s.(vnc := server)
  }

  predicate Allowed(s: Sys, a: Action) {
    && |s.http.threads| > SENDER && |s.vnc.threads| > SENDER
    && match a
       case Local(which, step) => Enabled(Of(s, which), step) && (step.Parsed? ==> which == Vnc)
       case AcceptOn(which, fd, watcherFree) => fd !in s.http.open && fd !in s.vnc.open && Of(s, which).threads[MAIN] == Free
       case Tell(which) => Of(s, which).threads[MAIN].Leaving?
       case Decide(which) => Of(s, which).threads[MAIN].Deciding?
       case LookUp(t) => t < |s.http.threads| && s.http.threads[t].Handling? && t !in s.looked
       case ForwardRequest(t) => t < |s.http.threads| && s.http.threads[t].Handling? && t in s.looked
       case ReturnReply(t, fd, seqNo, param, left) => t < |s.vnc.threads| && s.vnc.threads[t].Handling?
       case Release(which, t) => DoneWithMessage(Of(s, which), t)
       case CloseFd(which, t) => t < |Of(s, which).threads| && Of(s, which).threads[t].Closing?
  }

  /** The second agent is refused while the first one is known. */
  function AfterAccept(s: Sys, which: Which, fd: nat, watcherFree: bool): Sys
    requires MAIN < |Of(s, which).threads|
  {
    var welcome := which == Http || s.agent.None?;
    var s' := With(s, which, Accepted(Of(s, which), fd, welcome && watcherFree));
    s'.(log := s.log + [Accept(which, fd)],
        clients := if which == Http && fd !in s.clients then s.clients[fd := Client(|s.log|, true)] else s.clients,
        agent := if which == Vnc && s.agent.None? then Some(Agent(fd, |s.log|, true, 0)) else s.agent)
  }

  /** The low 32 bits of a number, as a header field holds them. */
  function Field(x: int): int32 {
    Signed(x % WORD)
  }

  /** The command that carries a task to the agent. */
  function CommandOf(task: Task, seqNo: int, fd: nat): Command.Cmd {
    match task
    case Request(data) => Command.Cmd(Command.Header(Command.COMMAND_PROXY, Field(|data|), Field(seqNo), Field(fd), true), data)
    case Notice => Command.Cmd(Command.Header(Command.COMMAND_PROXY_DISCONNECT, 0, Field(seqNo), Field(fd), true), [])
  }

  /**
   * The bytes are a whole command: its kind says whether it is a request or a notice, it carries the
   * task's number and the client's socket and is marked as new, and the request follows the header.
   */
  predicate IsCommand(bytes: seq<byte>, task: Task, seqNo: int, fd: nat) {
    && |bytes| >= Command.HEADER_LEN
    && var h, param := Command.DecodeHeader(bytes), bytes[Command.HEADER_LEN..];
    && h.seqNo == Field(seqNo) && h.fd == Field(fd) && h.isNew && h.len == Field(|param|)
    && (if task.Request? then h.kind == 1 && param == task.data else h.kind == 2 && param == [])
  }

  lemma CommandIsRight(task: Task, seqNo: int, fd: nat)
    ensures IsCommand(Command.EncodeCmd(CommandOf(task, seqNo, fd)), task, seqNo, fd)
  {
    hide Command.EncodeHeader, Command.DecodeHeader, Field;
    var c := CommandOf(task, seqNo, fd);
    Command.DecodeEncodeHeader(c.header, c.param);
    assert Command.EncodeCmd(c)[Command.HEADER_LEN..] == c.param;
    NoLength();
  }

  lemma NoLength()
    ensures Field(0) == 0
  {
  }

  /** An earlier task with the same number stays. */
  function KeepTask(tasks: map<int, Task>, seqNo: int, task: Task): map<int, Task> {
    if seqNo in tasks then tasks else tasks[seqNo := task]
  }

  /** Queues a command for the agent if that is online and a message is free, and keeps the task if a reply is due. */
  function SendToAgent(s: Sys, fd: nat, conn: nat, task: Task, needReturn: bool): Sys {
    if s.agent.None? || !s.agent.value.online || s.vnc.idle == [] then s else
    var agent, seqNo := s.agent.value, s.agent.value.nextSeq;
    var tasks := if fd in s.sessions then s.sessions[fd] else map[];
    s.(agent := Some(agent.(nextSeq := seqNo + 1)),
       sessions := s.sessions[fd := if needReturn then KeepTask(tasks, seqNo, task) else tasks],
       vnc := QueuedToSend(s.vnc, agent.fd, Command.EncodeCmd(CommandOf(task, seqNo, fd))),
       log := s.log + [Forward(fd, conn, agent.conn, seqNo, task)])
  }

  /** What the observer does when a connection is lost. The client is looked up without a check. */
  function AfterTell(s: Sys, which: Which): Sys
    requires MAIN < |Of(s, which).threads| && Of(s, which).threads[MAIN].Leaving?
    requires which == Http ==> s.http.threads[MAIN].fd in s.clients
  {
    var fd := Of(s, which).threads[MAIN].fd;
    var s' := With(s, which, Told(Of(s, which)));
    match which
    case Http => SendToAgent(s'.(clients := s.clients[fd := s.clients[fd].(online := false)]), fd, s.clients[fd].conn, Notice, false)
    case Vnc => if s.agent.Some? && s.agent.value.fd == fd then s'.(agent := Some(s.agent.value.(online := false))) else s'
  }

  /** The observer releases all it keeps for a connection. */
  function AfterOnClose(s: Sys, which: Which, fd: nat): Sys {
    var s' := s.(log := s.log + [OnClose(which, fd)]);
    match which
    case Http => s'.(clients := s.clients - {fd}, sessions := s.sessions - {fd})
    case Vnc => if s.agent.Some? && s.agent.value.fd == fd then s'.(agent := None) else s'
  }

  /** The parameters of a command; without any the message keeps what it holds. */
  function ReplyData(param: seq<byte>, left: seq<byte>): seq<byte> {
    if param == [] then left else param
  }

  /** Queues a reply for the client of the session, if the request is one of its own. */
  function ReplyToClient(s: Sys, fd: nat, seqNo: int, data: seq<byte>): Sys
    requires s.agent.Some? && (fd in s.sessions ==> fd in s.clients)
  {
    if fd in s.sessions && seqNo in s.sessions[fd] && s.http.idle != []
    then s.(http := QueuedToSend(s.http, fd, data), log := s.log + [Reply(fd, s.clients[fd].conn, s.agent.value.conn, seqNo, data)])
    else s
  }

  /** The state after an action; the lookups that the code does not check must hit. */
  function After(s: Sys, a: Action): Sys
    requires Allowed(s, a)
    requires a == Tell(Http) ==> s.http.threads[MAIN].fd in s.clients
    requires a.ReturnReply? ==> s.agent.Some? && (a.fd in s.sessions ==> a.fd in s.clients)
  {
    match a
    case Local(which, step) => With(s, which, Apply(Of(s, which), step))
    case AcceptOn(which, fd, watcherFree) => AfterAccept(s, which, fd, watcherFree)
    case Tell(which) => AfterTell(s, which)
    case Decide(which) =>
      var fd, s' := Of(s, which).threads[MAIN].fd, With(s, which, Decided(Of(s, which)));
      if Of(s', which).threads[MAIN].Closing? then AfterOnClose(s', which, fd) else s'
    case LookUp(t) =>
      var fd := s.http.threads[t].fd;
      s.(looked := if fd in s.clients then s.looked[t := s.clients[fd].conn] else s.looked)
    case ForwardRequest(t) =>
      SendToAgent(s.(http := Apply(s.http, Parsed(t)), looked := s.looked - {t}), s.http.threads[t].fd, s.looked[t], Request(s.http.threads[t].data), true)
    case ReturnReply(t, fd, seqNo, param, left) => ReplyToClient(s, fd, seqNo, ReplyData(param, left))
    case Release(which, t) =>
      var fd, s' := Of(s, which).threads[t].fd, With(s, which, Released(Of(s, which), t));
      if Of(s', which).threads[t].Closing? then AfterOnClose(s', which, fd) else s'
    case CloseFd(which, t) =>
      With(s, which, Closed(Of(s, which), t)).(log := s.log + [CloseSocket(which, Of(s, which).threads[t].fd)])
  }

  // What holds in every reachable state.

  /** An agent connection is the agent, or one that was refused: it is being dropped and has no message. */
  ghost predicate AgentOk(s: Sys, fd: nat) {
    fd in Known(s.vnc) ==>
      (s.agent.Some? && s.agent.value.fd == fd) || (LeaversOf(s.vnc, fd) > 0 && InFlight(s.vnc, fd) == 0)
  }

  ghost predicate MapsOk(s: Sys) {
    && s.clients.Keys == Known(s.http)
    && s.sessions.Keys <= s.clients.Keys
    && (s.agent.Some? ==> s.agent.value.fd in Known(s.vnc))
    && (forall fd :: AgentOk(s, fd))
    && s.http.open !! s.vnc.open
  }

  datatype Stage = Unused | Live | LetGo | Misused

  /** How far a socket is in its life; `Misused` after any event that does not come next. */
  function StageOf(log: seq<Event>, which: Which, fd: nat): Stage {
    if log == [] then Unused else
    var before, e := StageOf(log[..|log| - 1], which, fd), log[|log| - 1];
    if e == Event.Accept(which, fd) then (if before == Unused then Live else Misused)
    else if e == OnClose(which, fd) then (if before == Live then LetGo else Misused)
    else if e == CloseSocket(which, fd) then (if before == LetGo then Unused else Misused)
    else before
  }

  ghost predicate StagesOk(s: Sys) {
    forall which, fd :: StageOf(s.log, which, fd) ==
      if fd in Known(Of(s, which)) then Live else if fd in Of(s, which).open then LetGo else Unused
  }

  ghost predicate Core(s: Sys) {
    ServerInv(s.http) && ServerInv(s.vnc) && MapsOk(s)
  }

  /** A thread that works for a message or a disconnection does so for a socket that the observer knows. */
  lemma ThreadsSocketIsKnown(s: Server, t: nat)
    requires ServerInv(s) && t < |s.threads|
    requires var th := s.threads[t];
      th.Admitting? || th.Handling? || th.Handled? || th.Sending? || th.Sent? || th.Leaving? || th.Deciding?
    ensures s.threads[t].fd in Known(s)
    ensures !s.threads[t].Leaving? && !s.threads[t].Deciding? ==> InFlight(s, s.threads[t].fd) > 0
    ensures s.threads[t].Leaving? || s.threads[t].Deciding? ==> LeaversOf(s, s.threads[t].fd) > 0
  {
    assert SocketOk(s, s.threads[t].fd);
    ThreadSums(s, t, Free, s.threads[t].fd);
  }

  /** The unchecked lookup of a lost connection's client always hits. */
  lemma DisconnectLookupHits(s: Sys)
    requires Core(s) && s.http.threads[MAIN].Leaving?
    ensures s.http.threads[MAIN].fd in s.clients
  {
    ThreadsSocketIsKnown(s.http, MAIN);
  }

  /** While a request is queued or handled, its client exists. */
  lemma ClientOutlivesMessages(s: Sys, fd: nat)
    requires Core(s) && InFlight(s.http, fd) > 0
    ensures fd in s.clients
  {
    assert SocketOk(s.http, fd);
  }

  /** While a packet of an agent connection is queued or handled, that connection is the agent. */
  lemma AgentOutlivesMessages(s: Sys, fd: nat)
    requires Core(s) && InFlight(s.vnc, fd) > 0
    ensures s.agent.Some? && s.agent.value.fd == fd
  {
    assert SocketOk(s.vnc, fd) && AgentOk(s, fd);
  }

  lemma LookupsHit(s: Sys, a: Action)
    requires Core(s) && Allowed(s, a)
    ensures a == Tell(Http) ==> s.http.threads[MAIN].fd in s.clients
    ensures a.LookUp? || a.ForwardRequest? ==> s.http.threads[a.t].fd in s.clients
    ensures a.ReturnReply? ==> s.agent.Some? && (a.fd in s.sessions ==> a.fd in s.clients)
  {
    if a.ReturnReply? {
      ThreadsSocketIsKnown(s.vnc, a.t);
      AgentOutlivesMessages(s, s.vnc.threads[a.t].fd);
    }
    if a == Tell(Http) {
      DisconnectLookupHits(s);
    }
    if a.LookUp? || a.ForwardRequest? {
      ThreadsSocketIsKnown(s.http, a.t);
    }
  }

  ghost predicate PoolsKept(s: Sys, s': Sys) {
    && (forall id :: Places(s'.http, id) == Places(s.http, id))
    && (forall id :: Places(s'.vnc, id) == Places(s.vnc, id))
  }

  lemma LocalKeepsCore(s: Sys, which: Which, step: Step)
    requires Core(s) && Enabled(Of(s, which), step)
    ensures var s' := With(s, which, Apply(Of(s, which), step)); Core(s') && PoolsKept(s, s')
  {
    hide ServerInv, Apply, InFlight, LeaversOf, Known, Places;
    var s' := With(s, which, Apply(Of(s, which), step));
    StepKeepsInv(Of(s, which), step);
    forall fd: nat
      ensures AgentOk(s', fd)
    {
      assert AgentOk(s, fd);
    }
  }

  lemma AcceptKeepsCore(s: Sys, which: Which, fd: nat, watcherFree: bool)
    requires Core(s) && Allowed(s, AcceptOn(which, fd, watcherFree))
    ensures var s' := AfterAccept(s, which, fd, watcherFree); Core(s') && PoolsKept(s, s')
  {
    hide ServerInv, InFlight, LeaversOf, Places;
    var s' := AfterAccept(s, which, fd, watcherFree);
    AcceptKeepsInv(Of(s, which), fd, (which == Http || s.agent.None?) && watcherFree);
    forall d: nat
      ensures AgentOk(s', d)
    {
      assert AgentOk(s, d);
    }
  }

  /** What was looked up is of no concern to the servers and the maps. */
  lemma SameForCore(s: Sys, s': Sys)
    requires Core(s) && s' == s.(looked := s'.looked)
    ensures Core(s') && PoolsKept(s, s')
  {
    hide ServerInv, InFlight, LeaversOf, Known, Places;
    forall fd: nat
      ensures AgentOk(s', fd)
    {
      assert AgentOk(s, fd);
    }
  }

  lemma SendKeepsCore(s: Sys, fd: nat, conn: nat, task: Task, needReturn: bool)
    requires Core(s) && fd in s.clients
    ensures var s' := SendToAgent(s, fd, conn, task, needReturn); Core(s') && PoolsKept(s, s')
  {
    hide ServerInv, InFlight, LeaversOf, Known, Places;
    var s' := SendToAgent(s, fd, conn, task, needReturn);
    if s.agent.Some? && s.agent.value.online && s.vnc.idle != [] {
      QueuedKeepsInv(s.vnc, s.agent.value.fd, Command.EncodeCmd(CommandOf(task, s.agent.value.nextSeq, fd)));
      forall d: nat
        ensures AgentOk(s', d)
      {
        assert AgentOk(s, d);
      }
    }
  }

  lemma TellKeepsCore(s: Sys, which: Which)
    requires Core(s) && Allowed(s, Tell(which))
    requires which == Http ==> s.http.threads[MAIN].fd in s.clients
    ensures var s' := AfterTell(s, which); Core(s') && PoolsKept(s, s')
  {
    hide ServerInv, InFlight, LeaversOf, Known, Places, SendToAgent;
    var fd := Of(s, which).threads[MAIN].fd;
    ToldKeepsInv(Of(s, which));
    var s' := With(s, which, Told(Of(s, which)));
    var r := if which == Http then s'.(clients := s.clients[fd := s.clients[fd].(online := false)]) else AfterTell(s, Vnc);
    forall d: nat
      ensures AgentOk(r, d)
    {
      assert AgentOk(s, d);
    }
    if which == Http {
      SendKeepsCore(r, fd, s.clients[fd].conn, Notice, false);
    }
  }

  /** The observer releases a connection just when the server gives it up. */
  lemma OnCloseKeepsCore(s: Sys, s0: Sys, which: Which, fd: nat)
    requires Core(s0) && ServerInv(Of(s, which)) && s == With(s0, which, Of(s, which))
    requires fd in Known(Of(s0, which)) && Known(Of(s, which)) == Known(Of(s0, which)) - {fd} && Of(s, which).open == Of(s0, which).open
    requires forall d :: d != fd ==> InFlight(Of(s, which), d) == InFlight(Of(s0, which), d) && LeaversOf(Of(s, which), d) == LeaversOf(Of(s0, which), d)
    ensures Core(AfterOnClose(s, which, fd))
  {
    hide ServerInv, InFlight, LeaversOf, Known, Places;
    var s' := AfterOnClose(s, which, fd);
    forall d: nat
      ensures AgentOk(s', d)
    {
      assert AgentOk(s0, d);
    }
  }

  /** Every action keeps the invariant and every message of both pools. */
  lemma ActionKeepsCore(s: Sys, a: Action)
    requires Core(s) && Allowed(s, a)
    ensures (LookupsHit(s, a); Core(After(s, a)) && PoolsKept(s, After(s, a)))
  {
    hide ServerInv, Apply, InFlight, LeaversOf, Known, Places, MapsOk, SendToAgent, AfterAccept, AfterTell, AfterOnClose;
    LookupsHit(s, a);
    match a {
      case Local(which, step) =>
        LocalKeepsCore(s, which, step);
      case AcceptOn(which, fd, watcherFree) =>
        AcceptKeepsCore(s, which, fd, watcherFree);
      case Tell(which) =>
        TellKeepsCore(s, which);
      case Decide(which) =>
        DecideKeepsCore(s, which);
      case LookUp(t) =>
        SameForCore(s, After(s, a));
      case ForwardRequest(t) =>
        LocalKeepsCore(s, Http, Parsed(t));
        SameForCore(s.(http := Apply(s.http, Parsed(t))), s.(http := Apply(s.http, Parsed(t)), looked := s.looked - {t}));
        SendKeepsCore(s.(http := Apply(s.http, Parsed(t)), looked := s.looked - {t}), s.http.threads[t].fd, s.looked[t], Request(s.http.threads[t].data), true);
      case ReturnReply(t, fd, seqNo, param, left) =>
        ReplyKeepsCore(s, fd, seqNo, ReplyData(param, left));
      case Release(which, t) =>
        ReleaseKeepsCore(s, which, t);
      case CloseFd(which, t) =>
        CloseKeepsCore(s, which, t);
    }
  }

  lemma DecideKeepsCore(s: Sys, which: Which)
    requires Core(s) && Allowed(s, Decide(which))
    ensures Core(After(s, Decide(which))) && PoolsKept(s, After(s, Decide(which)))
  {
    hide ServerInv, InFlight, LeaversOf, Known, Places;
    var fd, s' := Of(s, which).threads[MAIN].fd, With(s, which, Decided(Of(s, which)));
    DecideKeepsInv(Of(s, which));
    if Of(s', which).threads[MAIN].Closing? {
      OnCloseKeepsCore(s', s, which, fd);
    } else {
      forall d: nat
        ensures AgentOk(s', d)
      {
        assert AgentOk(s, d);
      }
    }
  }

  lemma ReleaseKeepsCore(s: Sys, which: Which, t: nat)
    requires Core(s) && Allowed(s, Release(which, t))
    ensures Core(After(s, Release(which, t))) && PoolsKept(s, After(s, Release(which, t)))
  {
    hide ServerInv, InFlight, LeaversOf, Known, Places;
    var fd, s' := Of(s, which).threads[t].fd, With(s, which, Released(Of(s, which), t));
    ReleaseKeepsInv(Of(s, which), t);
    if Of(s', which).threads[t].Closing? {
      OnCloseKeepsCore(s', s, which, fd);
    } else {
      forall d: nat
        ensures AgentOk(s', d)
      {
        assert AgentOk(s, d);
      }
    }
  }

  lemma ReplyKeepsCore(s: Sys, fd: nat, seqNo: int, data: seq<byte>)
    requires Core(s) && s.agent.Some?
    ensures Core(ReplyToClient(s, fd, seqNo, data)) && PoolsKept(s, ReplyToClient(s, fd, seqNo, data))
  {
    hide ServerInv, InFlight, LeaversOf, Known, Places;
    if fd in s.sessions && seqNo in s.sessions[fd] && s.http.idle != [] {
      QueuedKeepsInv(s.http, fd, data);
    }
    var s' := ReplyToClient(s, fd, seqNo, data);
    forall d: nat
      ensures AgentOk(s', d)
    {
      assert AgentOk(s, d);
    }
  }

  lemma CloseKeepsCore(s: Sys, which: Which, t: nat)
    requires Core(s) && Allowed(s, CloseFd(which, t))
    ensures Core(After(s, CloseFd(which, t))) && PoolsKept(s, After(s, CloseFd(which, t)))
  {
    hide ServerInv, InFlight, LeaversOf, Known, Places;
    CloseKeepsInv(Of(s, which), t);
    var s' := After(s, CloseFd(which, t));
    forall d: nat
      ensures AgentOk(s', d)
    {
      assert AgentOk(s, d);
    }
  }

  // A client that was looked up is not released before it is used.

  /** What a thread has looked up is the client that the socket of its request has now. */
  ghost predicate LookedOk(s: Sys) {
    forall t :: t in s.looked ==>
      && t < |s.http.threads| && s.http.threads[t].Handling?
      && s.http.threads[t].fd in s.clients && s.clients[s.http.threads[t].fd].conn == s.looked[t]
  }

  /** An action leaves a client or the agent the same connection, or takes it away. */
  lemma ActionKeepsConns(s: Sys, a: Action, fd: nat)
    requires Core(s) && Allowed(s, a)
    ensures (LookupsHit(s, a); var s' := After(s, a);
      && (fd in s.clients && fd in s'.clients ==> s'.clients[fd].conn == s.clients[fd].conn)
      && (s.agent.Some? && s'.agent.Some? ==> s'.agent.value.conn == s.agent.value.conn && s'.agent.value.fd == s.agent.value.fd))
  {
    hide ServerInv, Apply, Decided, Released, Closed, Told, QueuedToSend, Known;
    LookupsHit(s, a);
  }

  /** A thread that handles a request goes on doing so until it forwards it. */
  lemma StepKeepsHandling(s: Server, step: Step, t: nat)
    requires RolesOk(s) && Enabled(s, step) && t < |s.threads| && s.threads[t].Handling? && step != Parsed(t)
    ensures |Apply(s, step).threads| == |s.threads| && Apply(s, step).threads[t] == s.threads[t]
  {
    assert RoleOk(t, s.threads[t]);
  }

  lemma HandlerIsNoLoop(s: Server, t: nat)
    requires ServerInv(s) && t < |s.threads| && s.threads[t].Handling?
    ensures t > SENDER && RolesOk(s)
  {
    assert RoleOk(t, s.threads[t]);
  }

  lemma ActionKeepsHandling(s: Sys, a: Action, t: nat)
    requires Core(s) && Allowed(s, a) && t in s.looked && t < |s.http.threads| && s.http.threads[t].Handling? && a != ForwardRequest(t)
    ensures (LookupsHit(s, a); var s' := After(s, a);
      t < |s'.http.threads| && s'.http.threads[t] == s.http.threads[t])
  {
    hide ServerInv, RolesOk, Apply, Known, MapsOk;
    LookupsHit(s, a);
    HandlerIsNoLoop(s.http, t);
    if a.Local? && a.which == Http {
      StepKeepsHandling(s.http, a.step, t);
    } else if a.ForwardRequest? {
      StepKeepsHandling(s.http, Parsed(a.t), t);
    }
  }

  lemma LookedAfter(s: Sys, a: Action, t: nat)
    requires Core(s) && Allowed(s, a)
    ensures (LookupsHit(s, a); var s' := After(s, a);
      && (t in s'.looked ==> a != ForwardRequest(t))
      && (t in s'.looked && a == LookUp(t) ==> s' == s.(looked := s'.looked) && s'.looked[t] == s.clients[s.http.threads[t].fd].conn)
      && (t in s'.looked && a != LookUp(t) ==> t in s.looked && s'.looked[t] == s.looked[t]))
  {
    hide ServerInv, Apply, Decided, Released, Closed, Told, QueuedToSend, Known;
    LookupsHit(s, a);
  }

  lemma ActionKeepsLooked(s: Sys, a: Action)
    requires Core(s) && Allowed(s, a) && LookedOk(s)
    ensures (LookupsHit(s, a); LookedOk(After(s, a)))
  {
    hide ServerInv, InFlight, LeaversOf, After, PoolsKept;
    LookupsHit(s, a);
    var s' := After(s, a);
    ActionKeepsCore(s, a);
    forall t | t in s'.looked
      ensures t < |s'.http.threads| && s'.http.threads[t].Handling?
      ensures s'.http.threads[t].fd in s'.clients && s'.clients[s'.http.threads[t].fd].conn == s'.looked[t]
    {
      LookedAfter(s, a, t);
      if a != LookUp(t) {
        ActionKeepsHandling(s, a, t);
        ThreadsSocketIsKnown(s'.http, t);
        ActionKeepsConns(s, a, s.http.threads[t].fd);
      }
    }
  }

  // The life of a socket: accept, release by the observer, close.

  lemma {:induction false} StageAfter(log: seq<Event>, more: seq<Event>, which: Which, fd: nat)
    requires forall i :: 0 <= i < |more| ==> more[i].Forward? || more[i].Reply?
    ensures StageOf(log + more, which, fd) == StageOf(log, which, fd)
    decreases |more|
  {
    if more == [] {
      assert log + more == log;
    } else {
      var rest := more[..|more| - 1];
      assert (log + more)[..|log + more| - 1] == log + rest;
      StageAfter(log, rest, which, fd);
    }
  }

  lemma StageAfterOne(log: seq<Event>, e: Event, which: Which, fd: nat)
    ensures var before := StageOf(log, which, fd);
      StageOf(log + [e], which, fd) ==
        if e == Event.Accept(which, fd) then (if before == Unused then Live else Misused)
        else if e == OnClose(which, fd) then (if before == Live then LetGo else Misused)
        else if e == CloseSocket(which, fd) then (if before == LetGo then Unused else Misused)
        else before
  {
    assert (log + [e])[..|log|] == log;
  }

  /** A send only adds requests to the log. */
  lemma SendLogs(s: Sys, fd: nat, conn: nat, task: Task, needReturn: bool)
    ensures var s' := SendToAgent(s, fd, conn, task, needReturn);
      && s.log <= s'.log && (forall i :: |s.log| <= i < |s'.log| ==> s'.log[i].Forward?)
      && s'.http.open == s.http.open && s'.vnc.open == s.vnc.open && Known(s'.http) == Known(s.http) && Known(s'.vnc) == Known(s.vnc)
  {
  }

  ghost predicate SameSockets(s: Sys, s': Sys) {
    && s'.http.open == s.http.open && Known(s'.http) == Known(s.http)
    && s'.vnc.open == s.vnc.open && Known(s'.vnc) == Known(s.vnc)
  }

  lemma StagesSame(s: Sys, s': Sys)
    requires StagesOk(s) && SameSockets(s, s')
    requires s.log <= s'.log && forall i :: |s.log| <= i < |s'.log| ==> s'.log[i].Forward? || s'.log[i].Reply?
    ensures StagesOk(s')
  {
    hide Known, StageOf;
    var more := s'.log[|s.log|..];
    assert s'.log == s.log + more;
    forall which, fd
      ensures StageOf(s'.log, which, fd) == StageOf(s.log, which, fd)
    {
      StageAfter(s.log, more, which, fd);
    }
  }

  /** What an event says of the sockets: accepting makes one known, `OnClose` lets it go, closing frees it. */
  ghost predicate EventFits(s: Sys, s': Sys, e: Event) {
    && (e.Accept? || e.OnClose? || e.CloseSocket?)
    && var before, after := Of(s, e.which), Of(s', e.which);
    && (e.Accept? ==> e.fd !in before.open && after.open == before.open + {e.fd} && Known(after) == Known(before) + {e.fd})
    && (e.OnClose? ==> e.fd in Known(before) && after.open == before.open && Known(after) == Known(before) - {e.fd})
    && (e.CloseSocket? ==> e.fd in before.open && e.fd !in Known(before) && after.open == before.open - {e.fd} && Known(after) == Known(before))
    && var other, other' := Of(s, if e.which == Http then Vnc else Http), Of(s', if e.which == Http then Vnc else Http);
    other'.open == other.open && Known(other') == Known(other)
  }

  lemma StagesOne(s: Sys, s': Sys, e: Event)
    requires StagesOk(s) && s'.log == s.log + [e] && EventFits(s, s', e)
    ensures StagesOk(s')
  {
    hide StageOf;
    forall which, fd
      ensures StageOf(s'.log, which, fd) == if fd in Known(Of(s', which)) then Live else if fd in Of(s', which).open then LetGo else Unused
    {
      StageAfterOne(s.log, e, which, fd);
    }
  }

  lemma ReplyLogs(s: Sys, fd: nat, seqNo: int, data: seq<byte>)
    requires s.agent.Some? && (fd in s.sessions ==> fd in s.clients)
    ensures var s' := ReplyToClient(s, fd, seqNo, data);
      s.log <= s'.log && (forall i :: |s.log| <= i < |s'.log| ==> s'.log[i].Reply?) && SameSockets(s, s')
  {
  }

  /** The log tells the sockets' lives: it grows by traffic only, or by one event that fits. */
  ghost predicate LogFits(s: Sys, s': Sys) {
    || (SameSockets(s, s') && s.log <= s'.log && forall i :: |s.log| <= i < |s'.log| ==> s'.log[i].Forward? || s'.log[i].Reply?)
    || (|s'.log| == |s.log| + 1 && s'.log == s.log + [s'.log[|s.log|]] && EventFits(s, s', s'.log[|s.log|]))
  }

  lemma FittingStages(s: Sys, s': Sys)
    requires StagesOk(s) && LogFits(s, s')
    ensures StagesOk(s')
  {
    hide StagesOk, SameSockets, EventFits;
    if SameSockets(s, s') && s.log <= s'.log && forall i :: |s.log| <= i < |s'.log| ==> s'.log[i].Forward? || s'.log[i].Reply? {
      StagesSame(s, s');
    } else {
      StagesOne(s, s', s'.log[|s.log|]);
    }
  }

  lemma TellFits(s: Sys, which: Which)
    requires Core(s) && Allowed(s, Tell(which))
    ensures (LookupsHit(s, Tell(which)); LogFits(s, After(s, Tell(which))))
  {
    hide ServerInv, InFlight, LeaversOf, Known, Places, MapsOk, SendToAgent;
    LookupsHit(s, Tell(which));
    ToldKeepsInv(Of(s, which));
    if which == Http {
      var fd := s.http.threads[MAIN].fd;
      SendLogs(s.(http := Told(s.http), clients := s.clients[fd := s.clients[fd].(online := false)]), fd, s.clients[fd].conn, Notice, false);
    }
  }

  lemma ForwardFits(s: Sys, t: nat)
    requires Core(s) && Allowed(s, ForwardRequest(t))
    ensures (LookupsHit(s, ForwardRequest(t)); LogFits(s, After(s, ForwardRequest(t))))
  {
    hide ServerInv, InFlight, LeaversOf, Known, Places, MapsOk, SendToAgent;
    LookupsHit(s, ForwardRequest(t));
    StepKeepsInv(s.http, Parsed(t));
    SendLogs(s.(http := Apply(s.http, Parsed(t)), looked := s.looked - {t}), s.http.threads[t].fd, s.looked[t], Request(s.http.threads[t].data), true);
  }

  lemma ReleasedFits(s: Sys, r: Sys, which: Which, fd: nat)
    requires r == With(s, which, Of(r, which)) && Of(r, which).open == Of(s, which).open
    requires fd in Known(Of(s, which)) && Known(Of(r, which)) == Known(Of(s, which)) - {fd}
    ensures LogFits(s, AfterOnClose(r, which, fd))
  {
    hide Known;
    assert AfterOnClose(r, which, fd).log == s.log + [OnClose(which, fd)];
  }

  lemma DecideFits(s: Sys, which: Which)
    requires Core(s) && Allowed(s, Decide(which))
    ensures LogFits(s, After(s, Decide(which)))
  {
    hide ServerInv, InFlight, LeaversOf, Known, Places, MapsOk, LogFits, AfterOnClose;
    var fd, r := Of(s, which).threads[MAIN].fd, With(s, which, Decided(Of(s, which)));
    DecideKeepsInv(Of(s, which));
    if Of(r, which).threads[MAIN].Closing? {
      ReleasedFits(s, r, which, fd);
    } else {
      NothingLogged(s, r, which);
    }
  }

  lemma ReleaseFits(s: Sys, which: Which, t: nat)
    requires Core(s) && Allowed(s, Release(which, t))
    ensures LogFits(s, After(s, Release(which, t)))
  {
    hide ServerInv, InFlight, LeaversOf, Known, Places, MapsOk, LogFits, AfterOnClose;
    var fd, r := Of(s, which).threads[t].fd, With(s, which, Released(Of(s, which), t));
    ReleaseKeepsInv(Of(s, which), t);
    if Of(r, which).threads[t].Closing? {
      ReleasedFits(s, r, which, fd);
    } else {
      NothingLogged(s, r, which);
    }
  }

  lemma NothingLogged(s: Sys, r: Sys, which: Which)
    requires r == With(s, which, Of(r, which)) && Of(r, which).open == Of(s, which).open && Known(Of(r, which)) == Known(Of(s, which))
    ensures LogFits(s, r)
  {
    hide Known;
  }

  lemma ActionFits(s: Sys, a: Action)
    requires Core(s) && Allowed(s, a)
    ensures (LookupsHit(s, a); LogFits(s, After(s, a)))
  {
    hide ServerInv, InFlight, LeaversOf, Known, Places, MapsOk, SendToAgent, Apply, Decided, Released;
    LookupsHit(s, a);
    match a {
      case Local(which, step) =>
        StepKeepsInv(Of(s, which), step);
      case AcceptOn(which, fd, watcherFree) =>
        AcceptKeepsInv(Of(s, which), fd, (which == Http || s.agent.None?) && watcherFree);
      case Tell(which) =>
        TellFits(s, which);
      case Decide(which) =>
        DecideFits(s, which);
      case LookUp(t) =>
      case ForwardRequest(t) =>
        ForwardFits(s, t);
      case ReturnReply(t, fd, seqNo, param, left) =>
        ReplyLogs(s, fd, seqNo, ReplyData(param, left));
      case Release(which, t) =>
        ReleaseFits(s, which, t);
      case CloseFd(which, t) =>
        CloseKeepsInv(Of(s, which), t);
    }
  }

  // Replies reach the connection that asked.

  /** The connection accepted at position `conn` of the log has not been released at position `at`. */
  ghost predicate StillServed(log: seq<Event>, fd: nat, conn: nat, at: nat) {
    conn < at <= |log| && log[conn] == Event.Accept(Http, fd) && OnClose(Http, fd) !in log[conn..at]
  }

  /** Position `j` of the log is where the connection's request of this number was forwarded. */
  predicate IsRequest(log: seq<Event>, j: nat, fd: nat, conn: nat, seqNo: int) {
    j < |log| && log[j].Forward? && log[j].task.Request? && log[j].fd == fd && log[j].conn == conn && log[j].seqNo == seqNo
  }

  /** The connection forwarded a request of this number before position `at`. */
  ghost predicate Asked(log: seq<Event>, fd: nat, conn: nat, seqNo: int, at: nat) {
    exists j: nat :: conn < j < at && IsRequest(log, j, fd, conn, seqNo)
  }

  /** What was forwarded after an agent was accepted went to it, until its answer at position `i`. */
  ghost predicate SameAgent(log: seq<Event>, agent: nat, i: nat) {
    forall j: nat :: agent < j < i && j < |log| && log[j].Forward? ==> log[j].agent == agent
  }

  /** A reply at position `i` answers a request that the same connection had forwarded. */
  ghost predicate ReplyOk(log: seq<Event>, i: nat) {
    i < |log| && log[i].Reply? ==>
      && StillServed(log, log[i].fd, log[i].conn, i) && Asked(log, log[i].fd, log[i].conn, log[i].seqNo, i)
      && SameAgent(log, log[i].agent, i)
  }

  ghost predicate ClientLogged(s: Sys, fd: nat) {
    && (fd in s.clients ==> StillServed(s.log, fd, s.clients[fd].conn, |s.log|))
    && (fd in s.clients && fd in s.sessions ==>
          forall q :: q in s.sessions[fd] ==> Asked(s.log, fd, s.clients[fd].conn, q, |s.log|))
  }

  /** The numbers that an agent connection is given grow, and all requests since its accept are its own. */
  ghost predicate NumbersOk(s: Sys) {
    && (s.agent.Some? ==>
          && s.agent.value.conn < |s.log| && SameAgent(s.log, s.agent.value.conn, |s.log|)
          && forall i: nat :: s.agent.value.conn < i < |s.log| && s.log[i].Forward? ==> s.log[i].seqNo < s.agent.value.nextSeq)
    && (forall i: nat :: i < |s.log| && s.log[i].Forward? ==> s.log[i].agent < i)
    && Growing(s.log)
  }

  ghost predicate Growing(log: seq<Event>) {
    forall i: nat, j: nat :: i < j < |log| && log[i].Forward? && log[j].Forward? && log[i].agent == log[j].agent ==> log[i].seqNo < log[j].seqNo
  }

  ghost predicate RoutesOk(s: Sys) {
    && (forall fd :: ClientLogged(s, fd))
    && (forall i :: ReplyOk(s.log, i))
    && NumbersOk(s)
  }

  lemma AskedStill(log: seq<Event>, e: Event, fd: nat, conn: nat, seqNo: int, at: nat)
    requires Asked(log, fd, conn, seqNo, at) && at <= |log|
    ensures Asked(log + [e], fd, conn, seqNo, at) && Asked(log + [e], fd, conn, seqNo, |log| + 1)
  {
    var j: nat :| conn < j < at && IsRequest(log, j, fd, conn, seqNo);
    assert IsRequest(log + [e], j, fd, conn, seqNo);
  }

  lemma RepliesKept(log: seq<Event>, e: Event)
    requires (forall i :: ReplyOk(log, i)) && !e.Reply?
    ensures forall i :: ReplyOk(log + [e], i)
  {
    forall i: nat
      ensures ReplyOk(log + [e], i)
    {
      assert ReplyOk(log, i);
      if i < |log| && log[i].Reply? {
        assert (log + [e])[log[i].conn..i] == log[log[i].conn..i];
        AskedStill(log, e, log[i].fd, log[i].conn, log[i].seqNo, i);
      }
    }
  }

  /** The clients' requests stay on record whatever is logged, as long as the client is not released. */
  lemma ClientsKept(s: Sys, e: Event, fd: nat)
    requires ClientLogged(s, fd) && fd in s.clients && e != OnClose(Http, fd)
    ensures StillServed(s.log + [e], fd, s.clients[fd].conn, |s.log| + 1)
    ensures fd in s.sessions ==> forall q :: q in s.sessions[fd] ==> Asked(s.log + [e], fd, s.clients[fd].conn, q, |s.log| + 1)
  {
    ServedStill(s.log, e, fd, s.clients[fd].conn);
    if fd in s.sessions {
      forall q | q in s.sessions[fd]
        ensures Asked(s.log + [e], fd, s.clients[fd].conn, q, |s.log| + 1)
      {
        AskedStill(s.log, e, fd, s.clients[fd].conn, q, |s.log|);
      }
    }
  }

  lemma NumbersKept(s: Sys, s': Sys, e: Event)
    requires NumbersOk(s) && s'.log == s.log + [e] && !e.Forward?
    requires s'.agent == s.agent || s'.agent == None || (s'.agent.Some? && s'.agent.value.conn == |s.log|)
      || (s.agent.Some? && s'.agent.Some? && s'.agent.value == s.agent.value.(online := s'.agent.value.online))
    ensures NumbersOk(s')
  {
  }

  lemma ServedStill(log: seq<Event>, e: Event, fd: nat, conn: nat)
    requires StillServed(log, fd, conn, |log|) && e != OnClose(Http, fd)
    ensures StillServed(log + [e], fd, conn, |log| + 1)
  {
    assert (log + [e])[conn..|log| + 1] == log[conn..|log|] + [e];
  }

  /** An event that is no request or reply and concerns no client that stays leaves the records right. */
  lemma RoutesAfterEvent(s: Sys, s': Sys, e: Event)
    requires RoutesOk(s) && s'.log == s.log + [e] && !e.Reply? && !e.Forward? && (s'.agent == s.agent || s'.agent == None)
    requires forall fd :: fd in s'.clients ==> fd in s.clients && s'.clients[fd].conn == s.clients[fd].conn && e != OnClose(Http, fd)
    requires forall fd :: fd in s'.clients && fd in s'.sessions ==>
      fd in s.sessions && forall q :: q in s'.sessions[fd] ==> q in s.sessions[fd]
    ensures RoutesOk(s')
  {
    hide NumbersOk, StillServed, Asked;
    RepliesKept(s.log, e);
    NumbersKept(s, s', e);
    forall fd: nat
      ensures ClientLogged(s', fd)
    {
      assert ClientLogged(s, fd);
      if fd in s'.clients {
        ClientsKept(s, e, fd);
      }
    }
  }

  lemma RoutesAfterAccept(s: Sys, which: Which, fd: nat, watcherFree: bool)
    requires Core(s) && RoutesOk(s) && Allowed(s, AcceptOn(which, fd, watcherFree))
    ensures RoutesOk(AfterAccept(s, which, fd, watcherFree))
  {
    hide NumbersOk, Asked;
    var s', e := AfterAccept(s, which, fd, watcherFree), Event.Accept(which, fd);
    RepliesKept(s.log, e);
    NumbersKept(s, s', e);
    forall d: nat
      ensures ClientLogged(s', d)
    {
      assert ClientLogged(s, d);
      if d in s.clients {
        ClientsKept(s, e, d);
      } else {
        assert s'.log[|s.log|..|s'.log|] == [e];
      }
    }
  }

  lemma NumbersAfterSend(s: Sys, fd: nat, conn: nat, task: Task, needReturn: bool)
    requires NumbersOk(s)
    ensures NumbersOk(SendToAgent(s, fd, conn, task, needReturn))
  {
  }

  lemma RoutesAfterSend(s: Sys, fd: nat, task: Task, needReturn: bool)
    requires RoutesOk(s) && fd in s.clients && (needReturn ==> task.Request?)
    ensures RoutesOk(SendToAgent(s, fd, s.clients[fd].conn, task, needReturn))
  {
    hide NumbersOk, StillServed, Asked;
    var s' := SendToAgent(s, fd, s.clients[fd].conn, task, needReturn);
    NumbersAfterSend(s, fd, s.clients[fd].conn, task, needReturn);
    if s'.log != s.log {
      var e := s'.log[|s.log|];
      RepliesKept(s.log, e);
      forall d: nat
        ensures ClientLogged(s', d)
      {
        assert ClientLogged(s, d);
        if d in s.clients {
          ClientsKept(s, e, d);
        }
        if d == fd && needReturn {
          JustAsked(s.log, e, fd, s.clients[fd].conn);
        }
      }
    }
  }

  lemma JustAsked(log: seq<Event>, e: Event, fd: nat, conn: nat)
    requires e.Forward? && e.task.Request? && e.fd == fd && e.conn == conn < |log|
    ensures Asked(log + [e], fd, conn, e.seqNo, |log| + 1)
  {
    assert IsRequest(log + [e], |log|, fd, conn, e.seqNo);
  }

  lemma ReplyIsOk(log: seq<Event>, e: Event)
    requires e.Reply? && StillServed(log, e.fd, e.conn, |log|) && Asked(log, e.fd, e.conn, e.seqNo, |log|) && SameAgent(log, e.agent, |log|)
    requires forall i :: ReplyOk(log, i)
    ensures forall i :: ReplyOk(log + [e], i)
  {
    forall i: nat
      ensures ReplyOk(log + [e], i)
    {
      assert ReplyOk(log, i);
      if i <= |log| && (log + [e])[i].Reply? {
        var r := (log + [e])[i];
        assert (log + [e])[r.conn..i] == log[r.conn..i];
        AskedStill(log, e, r.fd, r.conn, r.seqNo, i);
      }
    }
  }

  lemma RoutesAfterReply(s: Sys, fd: nat, seqNo: int, data: seq<byte>)
    requires RoutesOk(s) && s.agent.Some? && (fd in s.sessions ==> fd in s.clients)
    ensures RoutesOk(ReplyToClient(s, fd, seqNo, data))
  {
    hide StillServed, Asked, SameAgent, Growing;
    var s' := ReplyToClient(s, fd, seqNo, data);
    if s'.log != s.log {
      var e := s'.log[|s.log|];
      assert ClientLogged(s, fd);
      ReplyIsOk(s.log, e);
      NumbersKept(s, s', e);
      forall d: nat
        ensures ClientLogged(s', d)
      {
        assert ClientLogged(s, d);
        if d in s.clients {
          ClientsKept(s, e, d);
        }
      }
    }
  }

  lemma RoutesSame(s: Sys, s': Sys)
    requires RoutesOk(s) && s'.log == s.log && s'.sessions == s.sessions && s'.clients.Keys == s.clients.Keys
    requires forall fd :: fd in s.clients ==> s'.clients[fd].conn == s.clients[fd].conn
    requires s'.agent == s.agent || (s.agent.Some? && s'.agent.Some? && s'.agent.value == s.agent.value.(online := s'.agent.value.online))
    ensures RoutesOk(s')
  {
    hide StillServed, Asked, SameAgent, Growing;
    forall fd: nat
      ensures ClientLogged(s', fd)
    {
      assert ClientLogged(s, fd);
    }
  }

  lemma RoutesAfterTell(s: Sys, which: Which)
    requires Core(s) && Allowed(s, Tell(which)) && RoutesOk(s)
    ensures (LookupsHit(s, Tell(which)); RoutesOk(AfterTell(s, which)))
  {
    hide Core, RoutesOk, Told, SendToAgent;
    LookupsHit(s, Tell(which));
    if which == Http {
      var fd := s.http.threads[MAIN].fd;
      var r := s.(http := Told(s.http), clients := s.clients[fd := s.clients[fd].(online := false)]);
      RoutesSame(s, r);
      RoutesAfterSend(r, fd, Notice, false);
    } else {
      RoutesSame(s, AfterTell(s, which));
    }
  }

  lemma RoutesAfterForward(s: Sys, t: nat)
    requires Core(s) && Allowed(s, ForwardRequest(t)) && RoutesOk(s) && LookedOk(s)
    ensures RoutesOk(After(s, ForwardRequest(t)))
  {
    hide Core, RoutesOk, Apply, SendToAgent;
    LookupsHit(s, ForwardRequest(t));
    var r := s.(http := Apply(s.http, Parsed(t)), looked := s.looked - {t});
    assert s.looked[t] == s.clients[s.http.threads[t].fd].conn;
    RoutesSame(s, r);
    RoutesAfterSend(r, s.http.threads[t].fd, Request(s.http.threads[t].data), true);
  }

  lemma ActionKeepsRoutes(s: Sys, a: Action)
    requires Core(s) && Allowed(s, a) && RoutesOk(s) && LookedOk(s)
    ensures (LookupsHit(s, a); RoutesOk(After(s, a)))
  {
    hide Core, RoutesOk, LookedOk, Apply, Decided, Released, Closed, Told, QueuedToSend, SendToAgent, ReplyToClient, AfterAccept, AfterTell;
    LookupsHit(s, a);
    var s' := After(s, a);
    match a {
      case Local(which, step) =>
        RoutesSame(s, s');
      case AcceptOn(which, fd, watcherFree) =>
        RoutesAfterAccept(s, which, fd, watcherFree);
      case Tell(which) =>
        RoutesAfterTell(s, which);
      case Decide(which) =>
        GiveUpRoutes(s, With(s, which, Decided(Of(s, which))), s', which, Of(s, which).threads[MAIN].fd);
      case LookUp(t) =>
        RoutesSame(s, s');
      case ForwardRequest(t) =>
        RoutesAfterForward(s, t);
      case ReturnReply(t, fd, seqNo, param, left) =>
        RoutesAfterReply(s, fd, seqNo, ReplyData(param, left));
      case Release(which, t) =>
        GiveUpRoutes(s, With(s, which, Released(Of(s, which), t)), s', which, Of(s, which).threads[t].fd);
      case CloseFd(which, t) =>
        RoutesAfterEvent(s, s', CloseSocket(which, Of(s, which).threads[t].fd));
    }
  }

  lemma GiveUpRoutes(s: Sys, r: Sys, s': Sys, which: Which, fd: nat)
    requires RoutesOk(s) && r == With(s, which, Of(r, which)) && (s' == r || s' == AfterOnClose(r, which, fd))
    ensures RoutesOk(s')
  {
    hide RoutesOk;
    RoutesSame(s, r);
    if s' != r {
      RoutesAfterEvent(r, s', OnClose(which, fd));
    }
  }
}
