/** What the proxy does in the callbacks of its servers: its maps, changed in place; `View` is the proxy's state on values. */
module Observer {
  import opened Bytes
  import opened Lifetime
  import opened Proxy
  import opened Servers
  import opened Messages
  import Collections
  import Command

  class ClientRecord {
    const fd: nat
    ghost const conn: nat
    var online: bool
    var sendSeq: int

    constructor (fd: nat, ghost conn: nat)
      ensures this.fd == fd && this.conn == conn && online && sendSeq == 0
    {
      this.fd, this.conn, online, sendSeq := fd, conn, true, 0;
    }

    method AddSeq() returns (seqNo: int)
      modifies this`sendSeq
      ensures seqNo == old(sendSeq) && sendSeq == seqNo + 1
    {
      seqNo := sendSeq;
      sendSeq := sendSeq + 1;
    }
  }

  /** What is done to a session's tasks. */
  datatype TaskOp = Insert(seqNo: int, task: Task) | Erase(seqNo: int)

  /** An earlier task with the same number stays. */
  function ApplyTaskOp(tasks: map<int, Task>, op: TaskOp): map<int, Task> {
    match op
    case Insert(seqNo, task) => KeepTask(tasks, seqNo, task)
    case Erase(seqNo) => tasks - {seqNo}
  }

  function TasksAfter(ops: seq<TaskOp>): map<int, Task> {
    if ops == [] then map[] else ApplyTaskOp(TasksAfter(ops[..|ops| - 1]), ops[|ops| - 1])
  }

  function FindTask(tasks: map<int, Task>, seqNo: int): Option<Task> {
    if seqNo in tasks then Some(tasks[seqNo]) else None
  }

  /** Operation i inserted a task under the number, the first one since the number was erased last. */
  ghost predicate FirstSinceErased(ops: seq<TaskOp>, seqNo: int, i: nat) {
    && i < |ops| && ops[i].Insert? && ops[i].seqNo == seqNo
    && Erase(seqNo) !in ops[i..]
    && forall j :: 0 <= j < i && ops[j].Insert? && ops[j].seqNo == seqNo ==> Erase(seqNo) in ops[j..i]
  }

  /** The task that is found is the first one inserted since the number was erased last, or none. */
  lemma {:induction false} FoundIsFirstInserted(ops: seq<TaskOp>, seqNo: int)
    ensures forall i: nat :: FirstSinceErased(ops, seqNo, i) ==> FindTask(TasksAfter(ops), seqNo) == Some(ops[i].task)
    ensures FindTask(TasksAfter(ops), seqNo).Some? ==> exists i: nat :: FirstSinceErased(ops, seqNo, i)
    decreases |ops|
  {
    if ops != [] {
      var n := |ops| - 1;
      var before, op := ops[..n], ops[n];
      FoundIsFirstInserted(before, seqNo);
      forall i: nat | i < n
        ensures ops[i..] == before[i..] + [op] && forall j :: 0 <= j < i ==> ops[j..i] == before[j..i]
      {
      }
      assert forall j: nat :: j <= n ==> ops[j..n] == before[j..];
      forall i: nat | FirstSinceErased(ops, seqNo, i)
        ensures FindTask(TasksAfter(ops), seqNo) == Some(ops[i].task)
      {
        if i < n {
          assert FirstSinceErased(before, seqNo, i);
        }
      }
      if seqNo in TasksAfter(ops) {
        if j: nat :| FirstSinceErased(before, seqNo, j) {
          assert FirstSinceErased(ops, seqNo, j);
        } else {
          assert op == Insert(seqNo, op.task);
          NothingKeptBefore(before, seqNo);
          assert ops[n..] == [op];
          forall j | 0 <= j < n && ops[j].Insert? && ops[j].seqNo == seqNo
            ensures Erase(seqNo) in ops[j..n]
          {
            assert ops[j..n] == before[j..];
          }
          assert FirstSinceErased(ops, seqNo, n);
        }
      }
    }
  }

  /** Without a first insertion since the last erasure, every insertion was erased. */
  lemma {:induction false} NothingKeptBefore(ops: seq<TaskOp>, seqNo: int)
    requires forall i: nat :: !FirstSinceErased(ops, seqNo, i)
    ensures forall j :: 0 <= j < |ops| && ops[j].Insert? && ops[j].seqNo == seqNo ==> Erase(seqNo) in ops[j..]
  {
    if j :| 0 <= j < |ops| && ops[j].Insert? && ops[j].seqNo == seqNo && Erase(seqNo) !in ops[j..] {
      var i := EarliestKept(ops, seqNo, j);
      assert false;
    }
  }

  lemma {:induction false} EarliestKept(ops: seq<TaskOp>, seqNo: int, j: nat) returns (i: nat)
    requires j < |ops| && ops[j].Insert? && ops[j].seqNo == seqNo && Erase(seqNo) !in ops[j..]
    ensures FirstSinceErased(ops, seqNo, i)
    decreases j
  {
    if k :| 0 <= k < j && ops[k].Insert? && ops[k].seqNo == seqNo && Erase(seqNo) !in ops[k..j] {
      assert ops[k..] == ops[k..j] + ops[j..];
      i := EarliestKept(ops, seqNo, k);
    } else {
      i := j;
    }
  }

  /** A task has got its number, and is kept if a reply is due. */
  function Registered(s: Sys, fd: nat, conn: nat, task: Task, needReturn: bool): Sys
    requires s.agent.Some?
  {
    var agent, tasks := s.agent.value, if fd in s.sessions then s.sessions[fd] else map[];
    s.(agent := Some(agent.(nextSeq := agent.nextSeq + 1)),
       sessions := s.sessions[fd := if needReturn then KeepTask(tasks, agent.nextSeq, task) else tasks],
       log := s.log + [Event.Forward(fd, conn, agent.conn, agent.nextSeq, task)])
  }

  /** Sending is queueing the command and registering its task. */
  lemma SendIsRegistered(s: Sys, fd: nat, conn: nat, task: Task, needReturn: bool)
    requires s.agent.Some? && s.agent.value.online
    ensures var agent := s.agent.value;
      SendToAgent(s, fd, conn, task, needReturn) ==
        if s.vnc.idle == [] then s
        else Registered(s.(vnc := QueuedToSend(s.vnc, agent.fd, Command.EncodeCmd(CommandOf(task, agent.nextSeq, fd)))), fd, conn, task, needReturn)
  {
  }

  class Session {
    const client: ClientRecord
    var tasks: map<int, Task>

    constructor (client: ClientRecord)
      ensures this.client == client && tasks == map[]
    {
      this.client, tasks := client, map[];
    }

    method InsertRequestTask(seqNo: int, task: Task) returns (inserted: bool)
      modifies this`tasks
      ensures tasks == ApplyTaskOp(old(tasks), Insert(seqNo, task)) && inserted == (seqNo !in old(tasks))
      ensures tasks.Keys == old(tasks).Keys + {seqNo} && forall q :: q in old(tasks) ==> tasks[q] == old(tasks)[q]
      ensures inserted ==> tasks[seqNo] == task
    {
      inserted := seqNo !in tasks;
      if inserted {
        tasks := tasks[seqNo := task];
      }
    }

    method FindRequestTask(seqNo: int) returns (task: Option<Task>)
      ensures task == FindTask(tasks, seqNo)
    {
      task := if seqNo in tasks then Some(tasks[seqNo]) else None;
    }

    method EraseRequestTask(seqNo: int) returns (task: Option<Task>)
      modifies this`tasks
      ensures task == FindTask(old(tasks), seqNo) && tasks == ApplyTaskOp(old(tasks), Erase(seqNo))
    {
      task := if seqNo in tasks then Some(tasks[seqNo]) else None;
      tasks := tasks - {seqNo};
    }
  }

  class ProxyServer {
    const http: TcpServer
    const vnc: TcpServer
    var clients: map<nat, ClientRecord>
    var sessions: map<nat, Session>
    var agent: ClientRecord?
    /** The objects ever kept in the maps. */
    ghost var records: set<ClientRecord>
    ghost var started: set<Session>
    /** The maps and the agent on values. */
    ghost var clientView: map<nat, Client>
    ghost var taskView: map<nat, map<int, Task>>
    ghost var agentView: Option<Agent>
    /** The clients that handler threads have looked up. */
    ghost var looked: map<nat, nat>
    ghost var log: seq<Event>

    constructor (http: TcpServer, vnc: TcpServer)
      requires http != vnc
      ensures this.http == http && this.vnc == vnc
      ensures Valid() && clientView == map[] && taskView == map[] && agentView == None && looked == map[] && log == []
      ensures records == {} && started == {} && agent == null
    {
      this.http, this.vnc, clients, sessions, agent := http, vnc, map[], map[], null;
      records, started, clientView, taskView, agentView, looked, log := {}, {}, map[], map[], None, map[], [];
    }

    ghost predicate ClientOk(fd: nat)
      requires fd in clients && fd in clientView
      reads this`clients, this`clientView, this`records, records`online
    {
      && clients[fd] in records && clients[fd].fd == fd
      && clientView[fd] == Client(clients[fd].conn, clients[fd].online)
    }

    /** Every client is kept under its own socket. */
    ghost predicate ClientsOk()
      reads this`clients, this`clientView, this`records, records`online
    {
      clients.Keys == clientView.Keys && forall fd :: fd in clients ==> ClientOk(fd)
    }

    ghost predicate SessionOk(fd: nat)
      requires fd in sessions && fd in taskView
      reads this`sessions, this`taskView, this`started, started`tasks
    {
      sessions[fd] in started && sessions[fd].client.fd == fd && taskView[fd] == sessions[fd].tasks
    }

    /** Every session is kept under the socket of its client. */
    ghost predicate SessionsOk()
      reads this`sessions, this`taskView, this`started, started`tasks
    {
      sessions.Keys == taskView.Keys && forall fd :: fd in sessions ==> SessionOk(fd)
    }

    /** A session's client is the one the socket has now. */
    ghost predicate SessionsFit()
      reads this`clients, this`sessions
    {
      forall fd :: fd in sessions ==> fd in clients && sessions[fd].client == clients[fd]
    }

    ghost function AgentSet(): set<ClientRecord>
      reads this`agent
    {
      if agent == null then {} else {agent}
    }

    ghost predicate AgentOk()
      reads this`agent, this`agentView, AgentSet()`online, AgentSet()`sendSeq
    {
      agentView == if agent == null then None else Some(Agent(agent.fd, agent.conn, agent.online, agent.sendSeq))
    }

    ghost predicate Valid()
      reads this, records`online, started`tasks, AgentSet()`online, AgentSet()`sendSeq
    {
      http != vnc && ClientsOk() && SessionsOk() && SessionsFit() && AgentOk() && agent !in records
    }

    ghost function View(): Sys
      reads this, http`model, vnc`model
    {
      Sys(http.model, vnc.model, clientView, taskView, agentView, looked, log)
    }

    method CloseSessionByClient(fd: nat)
      requires SessionsOk()
      modifies this`sessions, this`taskView
      ensures SessionsOk() && sessions == old(sessions) - {fd} && taskView == old(taskView) - {fd}
    {
      if fd in sessions {
        sessions := sessions - {fd};
        taskView := taskView - {fd};
        assert forall d :: d in sessions ==> old(SessionOk(d));
      }
    }

    method AddClient(fd: nat)
      requires ClientsOk() && fd !in clients
      modifies this`clients, this`clientView, this`records
      ensures ClientsOk() && clientView == old(clientView)[fd := Client(|log|, true)]
      ensures clients.Keys == old(clients).Keys + {fd} && forall d :: d in old(clients) ==> clients[d] == old(clients)[d]
      ensures fresh(records - old(records))
    {
      var record := new ClientRecord(fd, |log|);
      clients := clients[fd := record];
      records, clientView := records + {record}, clientView[fd := Client(|log|, true)];
      forall d | d in clients
        ensures ClientOk(d)
      {
        assert d != fd ==> old(ClientOk(d));
      }
    }

    /** A new connection; a second agent is refused. */
    method OnAccept(which: Which, fd: nat) returns (welcome: bool)
      requires Valid() && fd !in clients
      modifies this`clients, this`clientView, this`records, this`agent, this`agentView, this`log
      ensures Valid() && welcome == (which == Http || old(agent) == null)
      ensures View() == old(View()).(log := old(log) + [Event.Accept(which, fd)],
        clients := if which == Http then old(clientView)[fd := Client(|old(log)|, true)] else old(clientView),
        agent := if which == Vnc && old(agent) == null then Some(Agent(fd, |old(log)|, true, 0)) else old(agentView))
      ensures fresh(records - old(records)) && (agent == old(agent) || fresh(agent))
    {
      hide ClientsOk, SessionsOk;
      welcome := true;
      if which == Http {
        AddClient(fd);
      } else if agent == null {
        agent := new ClientRecord(fd, |log|);
        agentView := Some(Agent(fd, |log|, true, 0));
      } else {
        welcome := false;
      }
      log := log + [Event.Accept(which, fd)];
    }

    method RemoveClient(fd: nat)
      requires ClientsOk()
      modifies this`clients, this`clientView
      ensures ClientsOk() && clientView == old(clientView) - {fd} && clients == old(clients) - {fd}
    {
      clients := clients - {fd};
      clientView := clientView - {fd};
      assert forall d :: d in clients ==> old(ClientOk(d));
    }

    /** Forgets all that is kept for a connection that is closed now. */
    method OnClose(which: Which, fd: nat)
      requires Valid()
      modifies this`clients, this`clientView, this`sessions, this`taskView, this`agent, this`agentView, this`log
      ensures Valid() && View() == AfterOnClose(old(View()), which, fd) && (agent == null || agent == old(agent))
    {
      hide ClientsOk, SessionsOk, SessionsFit;
      KeptParts();
      if which == Http {
        ForgetClient(fd);
      } else {
        ForgetAgent(fd);
      }
      log := log + [Event.OnClose(which, fd)];
    }

    lemma KeptParts()
      requires Valid()
      ensures ClientsOk() && SessionsOk() && SessionsFit() && AgentOk() && (agent == null <==> agentView == None)
      ensures agent != null ==> agentView == Some(Agent(agent.fd, agent.conn, agent.online, agent.sendSeq))
      ensures clients.Keys == clientView.Keys && agent !in records && http != vnc
      ensures forall d :: d in clients ==> clients[d] in records && clients[d].fd == d
    {
      assert forall d :: d in clients ==> ClientOk(d);
    }

    method ForgetClient(fd: nat)
      requires ClientsOk() && SessionsOk() && SessionsFit()
      modifies this`clients, this`clientView, this`sessions, this`taskView
      ensures ClientsOk() && SessionsOk() && SessionsFit()
      ensures clientView == old(clientView) - {fd} && taskView == old(taskView) - {fd}
    {
      hide ClientsOk, SessionsOk;
      if fd in clients {
        CloseSessionByClient(fd);
        RemoveClient(fd);
      } else {
        NothingKept(fd);
      }
    }

    method ForgetAgent(fd: nat)
      requires AgentOk()
      modifies this`agent, this`agentView
      ensures AgentOk() && (agent == null || agent == old(agent))
      ensures agentView == if old(agentView).Some? && old(agentView).value.fd == fd then None else old(agentView)
    {
      if agent != null && agent.fd == fd {
        agent := null;
        agentView := None;
      }
    }

    lemma NothingKept(fd: nat)
      requires ClientsOk() && SessionsOk() && SessionsFit() && fd !in clients
      ensures clientView - {fd} == clientView && taskView - {fd} == taskView
    {
    }

    lemma SameKeys()
      requires SessionsOk()
      ensures sessions.Keys == taskView.Keys
    {
    }

    method StartSession(client: ClientRecord)
      requires SessionsOk() && client.fd !in taskView
      modifies this`sessions, this`taskView, this`started
      ensures SessionsOk() && taskView == old(taskView)[client.fd := map[]] && fresh(started - old(started))
      ensures sessions.Keys == old(sessions).Keys + {client.fd} && sessions[client.fd].client == client
      ensures forall d :: d in old(sessions) ==> sessions[d] == old(sessions)[d]
    {
      var session := new Session(client);
      sessions := sessions[client.fd := session];
      started, taskView := started + {session}, taskView[client.fd := map[]];
      forall d | d in sessions
        ensures SessionOk(d)
      {
        assert d != client.fd ==> old(SessionOk(d));
      }
    }

    method AddTask(fd: nat, seqNo: int, task: Task)
      requires SessionsOk() && fd in taskView
      modifies this`taskView, started`tasks
      ensures SessionsOk() && taskView == old(taskView)[fd := KeepTask(old(taskView)[fd], seqNo, task)]
    {
      assert SessionOk(fd);
      var inserted := sessions[fd].InsertRequestTask(seqNo, task);
      taskView := taskView[fd := KeepTask(taskView[fd], seqNo, task)];
      forall d | d in sessions
        ensures SessionOk(d)
      {
        assert old(SessionOk(d));
      }
    }

    /** Starts a session for a client that has none. */
    method NeedSession(client: ClientRecord)
      requires SessionsOk() && SessionsFit() && client.fd in clients && clients[client.fd] == client
      modifies this`sessions, this`taskView, this`started
      ensures SessionsOk() && SessionsFit() && fresh(started - old(started))
      ensures taskView == old(taskView)[client.fd := if client.fd in old(taskView) then old(taskView)[client.fd] else map[]]
    {
      hide SessionsOk;
      SameKeys();
      if client.fd !in sessions {
        StartSession(client);
      }
    }

    /** Starts a session if there is none, and keeps the number of a request that is due a reply. */
    method KeepRequest(client: ClientRecord, seqNo: int, task: Task, needReturn: bool)
      requires SessionsOk() && SessionsFit() && client.fd in clients && clients[client.fd] == client
      modifies this`sessions, this`taskView, this`started, started`tasks
      ensures SessionsOk() && SessionsFit()
      ensures var tasks := if client.fd in old(taskView) then old(taskView)[client.fd] else map[];
        taskView == old(taskView)[client.fd := if needReturn then KeepTask(tasks, seqNo, task) else tasks]
      ensures fresh(started - old(started))
    {
      hide SessionsOk, SessionsFit;
      ghost var tasks := if client.fd in taskView then taskView[client.fd] else map[];
      Collections.UpdateTwice(taskView, client.fd, tasks, KeepTask(tasks, seqNo, task));
      NeedSession(client);
      if needReturn {
        AddTask(client.fd, seqNo, task);
      }
    }

    /** The number of the agent's next command. */
    ghost function NextNumber(): int
      reads this`agent, AgentSet()`sendSeq
    {
      if agent == null then 0 else agent.sendSeq
    }

    method NextSeq() returns (seqNo: int)
      requires AgentOk() && agent != null
      modifies agent`sendSeq, this`agentView
      ensures AgentOk() && seqNo == old(agent.sendSeq) && agentView == Some(Agent(agent.fd, agent.conn, agent.online, seqNo + 1))
    {
      seqNo := agent.AddSeq();
      agentView := Some(agentView.value.(nextSeq := seqNo + 1));
    }

    lemma RecordOf(client: ClientRecord)
      requires ClientsOk() && client.fd in clients && clients[client.fd] == client
      ensures client.fd in clientView && clientView[client.fd].conn == client.conn
    {
      assert ClientOk(client.fd);
    }

    /** Gives a request its number and keeps it if a reply is due. */
    method Register(client: ClientRecord, task: Task, needReturn: bool)
      requires Valid() && client.fd in clients && clients[client.fd] == client && agent != null
      modifies this`sessions, this`taskView, this`started, this`agentView, this`log, started`tasks, agent`sendSeq
      ensures Valid()
      ensures old(agentView).Some? && View() == Registered(old(View()), client.fd, client.conn, task, needReturn)
      ensures |log| == |old(log)| + 1
      ensures fresh(started - old(started))
    {
      hide SessionsOk, ClientsOk;
      var seqNo := NextSeq();
      KeepRequest(client, seqNo, task, needReturn);
      log := log + [Event.Forward(client.fd, client.conn, agent.conn, seqNo, task)];
    }

    /** A handler thread looks up the client of a request; the client may be used after the lock is given back. */
    method LookUpClient(fd: nat, ghost t: nat) returns (client: ClientRecord?)
      requires Valid() && Allowed(View(), LookUp(t)) && http.model.threads[t].fd == fd
      modifies this`looked
      ensures Valid() && View() == After(old(View()), LookUp(t))
      ensures client != null <==> fd in clients
      ensures client != null ==> clients[fd] == client && client.fd == fd && looked[t] == client.conn
    {
      client := null;
      if fd in clients {
        assert ClientOk(fd);
        client := clients[fd];
        looked := looked[t := client.conn];
      }
    }

    /** Fills a pooled message with the command for a task and queues it for the agent. */
    method QueueCommand(task: Task, fd: nat) returns (queued: bool, ghost m: Message?)
      requires Valid() && vnc.Valid() && agent != null && agent.fd in vnc.model.open
      requires vnc.model.idle != [] ==> Places(vnc.model, vnc.model.idle[0]) <= 1
      modifies vnc`model, vnc.handlingCount, vnc.packetSeqSend, vnc.idleList, vnc.sendList, vnc.pool
      ensures vnc.Valid() && queued == (m != null) == (old(vnc.model).idle != []) && vnc.Appended(m)
      ensures queued ==> m.fd == agent.fd && IsCommand(m.data, task, NextNumber(), fd)
      ensures Valid() && agentView.Some? && View() ==
        if queued then old(View()).(vnc := QueuedToSend(old(vnc.model), agent.fd, Command.EncodeCmd(CommandOf(task, agentView.value.nextSeq, fd)))) else old(View())
    {
      hide Places, QueuedToSend, TcpServer.Valid, CommandOf, IsCommand, TcpServer.Appended, ClientsOk, SessionsOk, SessionsFit;
      CommandIsRight(task, agent.sendSeq, fd);
      queued, m := vnc.QueueForSending(agent.fd, Command.EncodeCmd(CommandOf(task, agent.sendSeq, fd)));
    }

    lemma AgentIs()
      requires Valid() && agent != null
      ensures agentView == Some(Agent(agent.fd, agent.conn, agent.online, agent.sendSeq))
    {
    }

    /** What an agent that is on line is sent. */
    method SendOnline(client: ClientRecord, task: Task, needReturn: bool) returns (sent: bool, ghost m: Message?)
      requires Valid() && client.fd in clients && clients[client.fd] == client
      requires vnc.Valid() && agent != null && agent.online && agent.fd in vnc.model.open
      requires vnc.model.idle != [] ==> Places(vnc.model, vnc.model.idle[0]) <= 1
      modifies this`sessions, this`taskView, this`started, this`agentView, this`log, started`tasks, AgentSet()`sendSeq
      modifies vnc`model, vnc.handlingCount, vnc.packetSeqSend, vnc.idleList, vnc.sendList, vnc.pool
      ensures Valid() && vnc.Valid() && View() == SendToAgent(old(View()), client.fd, client.conn, task, needReturn)
      ensures sent == (log != old(log)) == (m != null) && fresh(started - old(started)) && vnc.Appended(m)
      ensures sent ==> m.fd == agent.fd && IsCommand(m.data, task, old(agent.sendSeq), client.fd)
    {
      hide Places, QueuedToSend, TcpServer.Valid, Valid, CommandOf, IsCommand, KeepTask, TcpServer.Appended, SendToAgent, Registered;
      AgentIs();
      SendIsRegistered(View(), client.fd, client.conn, task, needReturn);
      sent, m := QueueCommand(task, client.fd);
      if sent {
        Register(client, task, needReturn);
      }
    }

    /** Sends a command to the agent for a client; keeps the request if a reply is due. */
    method SendClient2VNC(client: ClientRecord, task: Task, needReturn: bool) returns (sent: bool, ghost m: Message?)
      requires Valid() && client.fd in clients && clients[client.fd] == client
      requires vnc.Valid() && (agent != null ==> agent.fd in vnc.model.open)
      requires vnc.model.idle != [] ==> Places(vnc.model, vnc.model.idle[0]) <= 1
      modifies this`sessions, this`taskView, this`started, this`agentView, this`log, started`tasks, AgentSet()`sendSeq
      modifies vnc`model, vnc.handlingCount, vnc.packetSeqSend, vnc.idleList, vnc.sendList, vnc.pool
      ensures Valid() && vnc.Valid() && View() == SendToAgent(old(View()), client.fd, client.conn, task, needReturn)
      ensures sent == (log != old(log)) == (m != null) && fresh(started - old(started)) && vnc.Appended(m)
      ensures sent ==> agent != null && m.fd == agent.fd && IsCommand(m.data, task, old(NextNumber()), client.fd)
    {
      hide Places, TcpServer.Valid, ClientsOk, SessionsOk, SessionsFit, IsCommand, TcpServer.Appended;
      sent, m := false, null;
      if agent == null || !agent.online {
        OfflineSends(client, task, needReturn);
        vnc.NothingAppended();
        return;
      }
      hide SendToAgent;
      sent, m := SendOnline(client, task, needReturn);
    }

    lemma OfflineSends(client: ClientRecord, task: Task, needReturn: bool)
      requires Valid() && (agent == null || !agent.online)
      ensures SendToAgent(View(), client.fd, client.conn, task, needReturn) == View()
    {
    }

    /** The client that has a session with a request of this number. */
    function FindAsker(fd: nat, seqNo: int): ClientRecord?
      reads this`sessions, sessions.Values`tasks
    {
      if fd in sessions && FindTask(sessions[fd].tasks, seqNo).Some? then sessions[fd].client else null
    }

    lemma AskerIsClient(fd: nat, seqNo: int)
      requires Valid()
      ensures var client := FindAsker(fd, seqNo);
        && (client != null <==> fd in taskView && seqNo in taskView[fd])
        && (client != null ==> client.fd == fd && fd in clientView && client.conn == clientView[fd].conn)
    {
      if fd in sessions {
        assert SessionOk(fd);
        RecordOf(sessions[fd].client);
      }
    }

    lemma SessionsHaveClients()
      requires Valid()
      ensures taskView.Keys <= clientView.Keys == clients.Keys
    {
    }

    /**
     * The session's client gets the reply if the request is one of its own. A command without
     * parameters leaves in the message what it holds from before.
     */
    method ReturnVNC2Client(fd: nat, seqNo: int, param: seq<byte>) returns (sent: bool, ghost m: Message?)
      requires Valid() && http.Valid() && clients.Keys <= http.model.open && agent != null
      requires http.model.idle != [] ==> Places(http.model, http.model.idle[0]) <= 1
      modifies this`log, http`model, http.handlingCount, http.packetSeqSend, http.idleList, http.sendList, http.pool
      ensures Valid() && http.Valid() && (fd in taskView ==> fd in clientView)
      ensures View() == ReplyToClient(old(View()), fd, seqNo, ReplyData(param, old(http.FrontHeld()))) && sent == (log != old(log))
      ensures http.Appended(m) && sent == (m != null)
      ensures sent ==> m.fd == fd && m.data == ReplyData(param, old(http.FrontHeld()))
    {
      hide Places, QueuedToSend, TcpServer.Valid, TcpServer.Appended, TcpServer.FrontHeld, ClientsOk, SessionsOk, SessionsFit, FindAsker;
      SessionsHaveClients();
      sent, m := false, null;
      http.NothingAppended();
      AskerIsClient(fd, seqNo);
      var client := FindAsker(fd, seqNo);
      if client != null {
        http.HeldInFront();
        var left := if http.idleList.items != [] then http.idleList.items[0].data else [];
        var data := if |param| > 0 then param else left;
        sent, m := http.QueueForSending(client.fd, data);
        if sent {
          log := log + [Event.Reply(fd, client.conn, agent.conn, seqNo, data)];
        }
      }
    }

    /** A command of the agent: the wish to disconnect a client, whose socket is to be shut down, or an answer. */
    method OnParseCmd(cmd: Command.Cmd) returns (shut: Option<int>, ghost m: Message?)
      requires Valid() && http.Valid() && clients.Keys <= http.model.open && agent != null
      requires http.model.idle != [] ==> Places(http.model, http.model.idle[0]) <= 1
      modifies this`log, http`model, http.handlingCount, http.packetSeqSend, http.idleList, http.sendList, http.pool
      ensures Valid() && http.Valid() && http.Appended(m)
      ensures var h := cmd.header;
        if h.kind == 2 || h.fd < 0 then
          m == null && View() == old(View()) && shut == if h.kind == 2 && h.isNew then Some(h.fd) else None
        else
          && shut == None && (h.fd in taskView ==> h.fd in clientView)
          && View() == ReplyToClient(old(View()), h.fd, h.seqNo, ReplyData(cmd.param, old(http.FrontHeld())))
          && (m != null ==> m.fd == h.fd && m.data == ReplyData(cmd.param, old(http.FrontHeld())))
    {
      hide Places, QueuedToSend, TcpServer.Valid, TcpServer.Appended, TcpServer.FrontHeld, Valid, ReplyToClient;
      shut, m := None, null;
      http.NothingAppended();
      if cmd.header.kind == Command.COMMAND_PROXY_DISCONNECT {
        if cmd.header.isNew {
          shut := Some(cmd.header.fd);
        }
      } else if cmd.header.fd >= 0 {
        var sent;
        sent, m := ReturnVNC2Client(cmd.header.fd, cmd.header.seqNo, cmd.param);
      }
    }

    /** A lost client is taken off line and the agent told; a lost agent is taken off line. */
    method OnDisconnect(which: Which, fd: nat)
      requires Valid() && vnc.Valid() && (which == Http ==> fd in clients)
      requires agent != null ==> agent.fd in vnc.model.open
      requires vnc.model.idle != [] ==> Places(vnc.model, vnc.model.idle[0]) <= 1
      modifies this`clientView, this`sessions, this`taskView, this`started, this`agentView, this`log
      modifies records`online, AgentSet()`online, AgentSet()`sendSeq, started`tasks
      modifies vnc`model, vnc.handlingCount, vnc.packetSeqSend, vnc.idleList, vnc.sendList, vnc.pool
      ensures Valid() && vnc.Valid() && fresh(started - old(started))
      ensures View() ==
        if which == Http then SendToAgent(old(View()).(clients := old(clientView)[fd := old(clientView)[fd].(online := false)]), fd, old(clientView)[fd].conn, Notice, false)
        else if old(agent) != null && old(agent).fd == fd then old(View()).(agent := Some(old(agentView).value.(online := false)))
        else old(View())
    {
      hide Places, TcpServer.Valid, ClientsOk, SessionsOk, SessionsFit, SendToAgent;
      KeptParts();
      if which == Http {
        ClientLost(fd);
      } else {
        AgentLost(fd);
      }
    }

    method ClientLost(fd: nat)
      requires Valid() && vnc.Valid() && fd in clients
      requires agent != null ==> agent.fd in vnc.model.open
      requires vnc.model.idle != [] ==> Places(vnc.model, vnc.model.idle[0]) <= 1
      modifies this`clientView, this`sessions, this`taskView, this`started, this`agentView, this`log
      modifies records`online, AgentSet()`sendSeq, started`tasks
      modifies vnc`model, vnc.handlingCount, vnc.packetSeqSend, vnc.idleList, vnc.sendList, vnc.pool
      ensures Valid() && vnc.Valid() && fd in old(clientView) && fresh(started - old(started))
      ensures View() ==
        SendToAgent(old(View()).(clients := old(clientView)[fd := old(clientView)[fd].(online := false)]), fd, old(clientView)[fd].conn, Notice, false)
    {
      hide *;
      KeptParts();
      var client := clients[fd];
      GoOffline(client, fd);
      var sent, _ := SendClient2VNC(client, Notice, false);
    }

    method AgentLost(fd: nat)
      requires AgentOk()
      modifies this`agentView, AgentSet()`online
      ensures AgentOk()
      ensures agentView == if agent != null && agent.fd == fd then Some(old(agentView).value.(online := false)) else old(agentView)
    {
      if agent != null && agent.fd == fd {
        agent.online := false;
        agentView := Some(agentView.value.(online := false));
      }
    }

    method GoOffline(client: ClientRecord, fd: nat)
      requires Valid() && fd in clients && clients[fd] == client
      modifies this`clientView, client`online
      ensures Valid() && client.fd == fd && fd in old(clientView) && client.conn == old(clientView)[fd].conn
      ensures View() == old(View()).(clients := old(clientView)[fd := old(clientView)[fd].(online := false)])
    {
      hide SessionsOk, SessionsFit;
      assert ClientOk(fd);
      client.online := false;
      clientView := clientView[fd := clientView[fd].(online := false)];
      forall d | d in clients
        ensures ClientOk(d)
      {
        assert d != fd ==> old(ClientOk(d));
      }
    }
  }
}
