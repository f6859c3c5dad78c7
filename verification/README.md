# A reverse HTTP proxy, its event loop and its codecs, verified

The repository holds a reverse proxy of two processes. `TcpPorxyServer` accepts HTTP clients on one
port and a single agent on another; `HttpProxyServer` is the agent. The server forwards what clients
send to the agent, and the agent answers with commands that carry response data in fragments. Both
run on libev. This project models the parts whose correctness rests on invariants that the code keeps
across functions, threads and runs, and proves those invariants and what follows from them.

## How the project is laid out

**The command channel.** `Command.dfy` has the wire format: a packed header of 17 bytes and up to
4095 bytes of parameters, and the framing of a whole stream as one function, `Frame`. `Agent.dfy` is
the sender, which cuts a body into fragments in one reused command. `Receiver.dfy` is the receiving
`Client`: the framer with its 8192-byte buffer, the bounded cache of packets that came too early, and
the error latch; its methods are proved against a receiver on values. `Reorder.dfy` proves what that
receiver keeps for any order of packets. `Channel.dfy` is the whole channel as a transition system
(agent threads write, the network cuts the stream anywhere, any handler thread parses any packet
next) with the end-to-end theorems over all its runs. `Reassembly.dfy` says what follows for a
receiver that sees nothing but the headers of the commands.

**The connection-lifetime protocol.** `Lifetime.dfy` is one `TcpServer` as a state machine whose steps
are the sections under a mutex, the list operations and the observer callbacks, with the event loop,
the send thread and any number of handler threads. `Proxy.dfy` puts the two servers together with the
maps of clients and sessions and the one agent, and proves that every step keeps the invariants.
`ProxyRuns.dfy` states what that means for every run, `Traffic.dfy` in which order and with which
bytes messages pass through it, and `Answers.dfy` which requests are answered. `Servers.dfy` and `Observer.dfy` are the classes
that change the tables, lists and maps in place; their methods are proved against the functions that
the state machine uses.

**The event loop.** `TimerHeap.dfy` is the 4-ary heap with back-indices, `Timers.dfy` the timers on it,
`Pending.dfy` the stacks of pending watchers, `PendingModel.dfy` a simpler model they refine,
`FiringOrder.dfy` the order in which expired timers are called, `PollTable.dfy` the dense poll table
with its inverse index, `Interest.dfy` the watcher lists, the list of changed descriptors and their
reification, `Growth.dfy` the growth of arrays.

**Codecs.** `Md5Spec.dfy` is MD5 as RFC 1321 defines it, `Md5.dfy` the incremental implementation with
its buffer and unrolled rounds. `Tea.dfy` is the block cipher and the hexadecimal form of enciphered
configuration files, `ConfFile.dfy` their line parser and printer, and `ConfSets.dfy` the condition
under which a set of settings comes back. `Crc.dfy` is the checksum and `Base64.dfy` the Base64 codec.

`Bytes.dfy`, `Collections.dfy`, `Messages.dfy` and `Watchers.dfy` hold what these share, and
`KnownAnswers.dfy` fixes bytes that a round trip leaves open. `dafny verify dfyconfig.toml` checks
everything.

## What the main results say

- *Channel.* In every run the commands handed to `OnParseCmd` are, in order and byte for byte, a
  beginning of the commands written; when everything was received and handled they are all of them,
  and each call's parameters join to its body. The receiver has failed exactly if the pool ran dry
  at some step with a packet still missing, which a pool for the packets behind the missing one rules
  out, and a failure is final. The parameters of the delivered commands whose headers carry a request's
  number and its client's socket are, in order, the bytes sent to answer that request. Agents that
  follow one another share the pool: it is whole as long as no receiver ran dry, and lost entirely once
  one did.
- *Lifetime.* In every run the count of a socket is the number of its messages queued or in a thread's
  hands; a socket is released by the observer once and then closed once for every accept, only while
  nothing of it is in flight, and none is forgotten; all lookups that the code does not check hit,
  and a client that a thread uses was not released since the thread looked it up; every pooled
  message is in exactly one place; a reply reaches only a connection that forwarded a request of its
  number and was not released since, and within one agent connection that request is the only one
  of its number.
- *Traffic.* In every run handlers take packets in the order of their arrival, and senders take
  messages in the order in which they were queued, each with the bytes it was queued with: the reply's
  parameters, or a command with the request behind a header that names it. A request that was forwarded
  is kept until its client is released, what comes back under its number is queued for that client, and
  a notice is never kept.
- *Timers.* Every operation keeps the heap order, the back-indices and the cached deadlines, and the
  heap holds exactly the started timers. Expiry takes exactly the due timers, earliest first, and
  leaves none that is due; after reverse feeding, the stacks call due timers of one priority in the
  order of their deadlines, whatever the callbacks make pending.
- *Pending events.* The stacks with their back-pointers refine a map from watchers to events: each
  call delivers exactly what was fed since the last call or clear, always at the highest priority.
- *Interest.* A descriptor that is not marked as changed is polled for exactly the union of what its
  started watchers want, so after reification this holds of all of them; and whatever poll finds ready
  on it is fed to just the watchers that want it.
- *MD5.* Appending in any pieces gives the state of appending the whole, and the digest is the one of
  RFC 1321 for every message.
- *Checksum and Base64.* The checksum by table is the one by bit-serial division, and detects every
  change within four neighbouring bytes; decoding inverts encoding, which follows RFC 4648.
- *Configuration.* A single setting survives printing, enciphering, deciphering and parsing just if a
  condition holds that can be checked before printing, and so does a set of settings, printed in any
  order, unless it has both an entry longer than a line and a key with a tab in it.

## Where the code does something a reader may not expect

- A setting can be lost in a configuration file: `FileRoundTrip` and `SettingRoundTrip` give the exact
  condition. An equals sign in key or value, an empty key in front of a value, a key that begins with
  `#`, a key that begins with `[` in front of a value that ends with `]`, a newline or a zero byte, and
  a header or entry line of more than 4095 bytes do not come back.
- Several settings can come back although one of them would not alone (`EmptySettingHelps`): an entry
  that is a byte or two longer than a line leaves an empty line behind, which is read as the section's
  empty setting. `SetRoundTrip` has the exact condition with this exception.
- Printing an enciphered configuration writes one byte behind its buffer just if the text's length is
  one more than a multiple of eight (`HexFitsBuffer`); `PrintedTextOverruns` is such a configuration.
- A receiver whose pool ran dry fails with all of the pool in its cache, and the cache of an agent that
  is closed is not given back: every later agent then starts with an empty pool and fails at its first
  packet out of turn. A receiver that did not fail loses nothing (`PoolIsWholeOrLost`); a run that
  loses the pool exists for every size of it (`PoolCanBeLost`).
- A write of which the connection takes only a part is reported as failed, but the connection stays
  open for other threads. Commands written behind it are framed right, whatever they are, just if the
  part was empty (`ShortWrite`).
- An answer without parameters is queued with what the pooled message held before (`ReplyData`), because
  the length and the bytes are only set if there are any. This agent sends no such answer.
- A packet number that arrives twice ahead of its turn loses a pooled message (`KSafeMap.Insert` does
  not replace, and the second message is not given back). `ParseData` states exactly when that happens;
  the numbering of `Recv_Callback` rules it out.

## Model

| member | source | states |
|---|---|---|
| Command.DecodeEncodeHeader | TcpPorxyServer/include/CommandDef.h:28-59 | The packed 17-byte header loses nothing: reading back the bytes of any header gives that header. |
| KnownAnswers.HeaderBytes | TcpPorxyServer/include/CommandDef.h:28-59 | The bytes of a given header: kind, length, number and socket in this order, lowest byte first, and the flag. |
| Command.WireAppend | HttpProxyServer/TcpProxyClient.cpp:319-348 | Writing commands one after the other puts the concatenation of their bytes on the stream. |
| Command.FrontAppend | TcpPorxyServer/Client.cpp:253-366 | What the front of a stream decides (a whole command, or a header that is refused) is not changed by bytes that arrive later. |
| Command.FrameAppend | TcpPorxyServer/Client.cpp:253-366 | Framing a packet and then, behind its residue, the next one delivers the same commands and leaves the same residue as framing both at once. |
| Command.FrameWire | TcpPorxyServer/Client.cpp:253-366 | Framing inverts writing: the stream of any well-formed commands gives back exactly these commands with no residue. |
| Command.FramePrefix | TcpPorxyServer/Client.cpp:253-366 | Of a stream that was cut off anywhere, framing gives a beginning of the commands written and finds no error. |
| Command.RestIsShort | TcpPorxyServer/Client.cpp:253-366 | The residue of a stream without errors is always an incomplete command, so it fits the buffer. |
| Agent.FragmentsCarryBody | HttpProxyServer/TcpProxyClient.cpp:276-301 | The parameters of the fragments of a body join to exactly that body. |
| Agent.FragmentsShape | HttpProxyServer/TcpProxyClient.cpp:276-301 | Every fragment but the last is full and none is empty; the header of each says that it is an answer, carries the call's request number and socket each in its own field, and its length; only an empty body has none. |
| Agent.ProxyAgent.SendCommand | HttpProxyServer/TcpProxyClient.cpp:319-348 | The connection takes the command, or the part of it that it has room for, and the answer is yes just if it took all of it. |
| Agent.ProxyAgent.SendProxyBuffer | HttpProxyServer/TcpProxyClient.cpp:276-301 | The loop over one reused command writes the fragments of the body in order up to and with the first write that is short, and the answer is yes just if none was. |
| Agent.ProxyAgent.TakenIsWhole | HttpProxyServer/TcpProxyClient.cpp:276-301 | What reaches the connection is the stream of the fragments before the first short write and a part of the next one. |
| Agent.ProxyAgent.SendProxyDisconnect | HttpProxyServer/TcpProxyClient.cpp:306-317 | One disconnect command with the next number of the agent's own counter and the socket in its header is written, as far as the connection takes it. |
| Agent.CutIsPartial | HttpProxyServer/TcpProxyClient.cpp:340-346 | A short write with nothing behind it costs only its own command: all commands before it are framed and what is left is just incomplete. |
| Agent.ShortWrite | HttpProxyServer/TcpProxyClient.cpp:340-346 | Any command written behind a short write is framed as it was written if and only if the short write left nothing on the connection. |
| Receiver.Framer.Parse | TcpPorxyServer/Client.cpp:253-366 | The loop terminates, never overruns the buffer, delivers exactly the whole commands of residue and packet together and keeps exactly the rest. |
| Receiver.Framer.CutCommands | TcpPorxyServer/Client.cpp:271-350 | The inner loop takes all whole commands off the front of the buffer and moves what is left to its start. |
| Receiver.PacketCache.Keep | TcpPorxyServer/Client.cpp:88-104 | A packet that came too early is copied into a pooled message and kept under its number unless that number is kept already; it fails just if the pool is empty. |
| Receiver.PacketCache.Release | TcpPorxyServer/Client.cpp:175-179 | A parsed packet leaves the cache and its message is in the pool again; no message is lost or doubled. |
| Receiver.Client.ParseCached | TcpPorxyServer/Client.cpp:156-186 | One round of the inner loop does to buffer, cache, number and pool what one turn of the specification does, also when the packet is refused. |
| Receiver.Client.ParseData | TcpPorxyServer/Client.cpp:40-235 | Handling a packet on any thread does exactly what the receiver on values does, keeps every message of pool and cache except for one lost when a number is cached twice, and returns -1 just if the client has failed. |
| Reorder.ReceiveTracks | TcpPorxyServer/Client.cpp:62-219 | Whatever packet is handled next, the cache holds only packets above the expected number, exactly the packets below it have been parsed in order, and every packet is parsed, cached or still waiting. |
| Reorder.RefusedForGood | TcpPorxyServer/Client.cpp:74-84 | Once the packets joined in order are refused, packets that come later add no command. |
| Reorder.DryPoolIsTooSmall | TcpPorxyServer/Client.cpp:88-118 | The pool runs dry only if more packets than it can hold are ahead of a missing one. |
| Reorder.ArrivalOrderIrrelevant | TcpPorxyServer/Client.cpp:40-235 | Every permutation of the packets gives the same commands and, unless the stream itself is bad, ends with every packet parsed and an empty cache. |
| Channel.StepKeepsInv | TcpPorxyServer/TcpServer.cpp:774-807 | Writes of several threads, cuts anywhere and handling in any order keep the invariants of both ends of the channel. |
| Channel.RunKeepsInv | TcpPorxyServer/TcpServer.cpp:774-807 | The invariants hold in every state of every run. |
| Channel.DeliveredIsPrefix | TcpPorxyServer/Client.cpp:40-366 | In every run the delivered commands are an in-order, byte-exact beginning of those written. |
| Channel.FailsOnlyWhenDry | TcpPorxyServer/Client.cpp:88-118 | In every run the receiver has failed if and only if at some step of the run a packet was handled ahead of its turn while the pool was empty. |
| Channel.DeliveredEverything | TcpPorxyServer/Client.cpp:40-366 | When all bytes were received, all packets handled and the receiver has not failed, all commands were delivered and cache and residue are empty. |
| Channel.LargePoolNeverFails | TcpPorxyServer/Client.cpp:88-118 | While the packets from the expected one on are at most one more than the pool holds, a run has not failed, however many packets were handled before. |
| Channel.FailureIsFinal | TcpPorxyServer/Client.cpp:74-84 | After a failure no later step of a run delivers, keeps or changes anything at the receiver. |
| Channel.PoolAfterRun | TcpPorxyServer/Client.cpp:88-118 | When none of an agent's packets is queued or handled any more, its receiver has failed with no message left in the pool, or has given all of them back. |
| Channel.PoolIsWholeOrLost | TcpPorxyServer/Client.cpp:27-30 | However many agents follow one another, each closed when none of its packets is queued or handled, the pool is whole if at no step of any of their runs it ran dry with a packet missing, and empty if it did. |
| Channel.PoolCanBeLost | TcpPorxyServer/Client.cpp:88-118 | For every size of the pool a concrete run that loses all of it. |
| Receiver.Succeed | TcpPorxyServer/TcpProxyServer.cpp:388-390 | When one agent's receiver is replaced by the next, exactly the messages in its cache are lost to the pool. |
| Channel.DeliveredInCallOrder | HttpProxyServer/TcpProxyClient.cpp:276-348 | What was delivered of one call is a beginning of its own commands in order, however other calls interleaved. |
| Channel.CallsAreReassembled | HttpProxyServer/TcpProxyClient.cpp:276-348 | The parameters delivered of a body are its first bytes, and the whole body once all of the call was written and delivered. |
| Reassembly.CommandTells | HttpProxyServer/TcpProxyClient.cpp:276-317 | The header of a written command says whether its call answers a given request of a given client. |
| Reassembly.HeadersTellCalls | HttpProxyServer/TcpProxyClient.cpp:276-348 | In every run the written commands whose headers carry a request's numbers are what the calls for that request have written, in the order of the calls, if one thread makes these calls one after the other. |
| Reassembly.AnswersAreReassembled | HttpProxyServer/TcpProxyClient.cpp:276-348 | The parameters of the delivered commands whose headers carry a request's numbers are a beginning of the bytes sent to answer it, and all of them once its calls are finished and everything was delivered. |
| Messages.MessageList.PushBack | TcpPorxyServer/MessageList.cpp:21-27 | The list gets the message at its end, and the size stays the number of messages. |
| Messages.MessageList.PopFront | TcpPorxyServer/MessageList.cpp:28-37 | The first message leaves the list, or nothing does if it is empty; the size stays right. |
| Lifetime.StepKeepsInv | TcpPorxyServer/TcpServer.cpp:736-856 | Every step of the event loop, the handlers and the sender keeps exact counts, keeps every open socket cared for, and moves no message to two places. |
| Lifetime.AcceptKeepsInv | TcpPorxyServer/TcpServer.cpp:611-707 | A new socket starts with an empty count and is either watched or being dropped. |
| Lifetime.QueuedKeepsInv | TcpPorxyServer/TcpServer.cpp:901-933 | A message may be queued for any socket the observer still knows, and then it is counted. |
| Lifetime.DecideKeepsInv | TcpPorxyServer/TcpServer.cpp:1189-1229 | A disconnected socket is closed at once just if nothing of it is in flight; otherwise its last message will do so. |
| Lifetime.ReleaseKeepsInv | TcpPorxyServer/TcpServer.cpp:1080-1124 | A thread that is done with a message closes the socket just if it was the last message of a disconnected socket, and no second thread does. |
| Lifetime.CloseKeepsInv | TcpPorxyServer/TcpServer.cpp:1117-1123 | Closing frees a socket that nothing refers to any more. |
| Servers.TcpServer.ResetSocket | TcpPorxyServer/TcpServer.cpp:611-622 | The tables of a new socket are set to zero and false, as the state machine's accept requires. |
| Servers.TcpServer.Admit | TcpPorxyServer/TcpServer.cpp:799-805 | A received message is counted for its socket and gets the socket's next packet number, as the state machine's step does. |
| Servers.TcpServer.TakeToHandle | TcpPorxyServer/TcpServer.cpp:305-332 | A handler thread gets the oldest message, marked with the socket it was received from. |
| Servers.TcpServer.TakeToSend | TcpPorxyServer/TcpServer.cpp:1035-1044 | The sender gets the oldest message queued for sending, with its socket and its bytes. |
| Servers.TcpServer.SendMessageByQueue | TcpPorxyServer/TcpServer.cpp:901-933 | A message is counted for its socket, numbered, and put at the end of the send queue. |
| Servers.TcpServer.QueueForSending | TcpPorxyServer/TcpProxyServer.cpp:529-586 | The pooled message that is taken is filled with the socket and the bytes and put at the end of the send queue; no other pooled message changes; it fails just if the pool is empty. |
| Servers.TcpServer.CloseSocketIfNeed | TcpPorxyServer/TcpServer.cpp:1080-1112 | The answer is yes just if the state machine lets this thread close the socket. |
| Servers.TcpServer.DecideClose | TcpPorxyServer/TcpServer.cpp:1189-1221 | The answer is yes just if the state machine lets the event loop close the socket; otherwise the deferred-close flag is set. |
| Observer.Session.InsertRequestTask | TcpPorxyServer/Session.cpp:25-33 | A request is kept under its number unless there is one already, which then stays. |
| Observer.FoundIsFirstInserted | TcpPorxyServer/Session.cpp:25-52 | Whatever was inserted and erased before, the task found under a number is the first one inserted since the number was last erased, or none if there is no such one. |
| Observer.Session.EraseRequestTask | TcpPorxyServer/Session.cpp:44-52 | The request is handed out and forgotten, the others stay. |
| Observer.ProxyServer.OnAccept | TcpPorxyServer/TcpProxyServer.cpp:211-277 | An HTTP client is added; an agent is taken only if there is none, else it is refused and nothing changes. |
| Observer.ProxyServer.OnDisconnect | TcpPorxyServer/TcpProxyServer.cpp:279-337 | A lost client goes off line and the agent is told, as the state machine's step does; a lost agent goes off line if it is the known one. |
| Observer.ProxyServer.OnClose | TcpPorxyServer/TcpProxyServer.cpp:339-418 | Client and session of the socket, or the agent if it is the known one, are forgotten, and nothing else. |
| Observer.ProxyServer.LookUpClient | TcpPorxyServer/TcpProxyServer.cpp:846-855 | The client that a handler thread gets is the one kept for the socket, or none, and nothing else changes. |
| Observer.ProxyServer.SendClient2VNC | TcpPorxyServer/TcpProxyServer.cpp:504-594 | One message for the agent's socket is queued, which holds a whole command with the task, its number and the client's socket, no other message changes, and the task is kept in the client's session if a reply is due; or nothing changes, if the agent is off line or the pool is empty. |
| Observer.ProxyServer.ReturnVNC2Client | TcpPorxyServer/TcpProxyServer.cpp:596-728 | One message for the client's socket is queued, which holds the parameters that came back, and no other message changes, just if the session holds the request's number and a message is free; otherwise nothing changes. |
| Observer.ProxyServer.OnParseCmd | TcpPorxyServer/TcpProxyServer.cpp:788-834 | A disconnect command that is marked as new names the socket to be shut down and queues nothing; any other command is returned to its client. |
| Proxy.CommandIsRight | TcpPorxyServer/task/ProxyClientTask.cpp:20-32 | The bytes of the command for a task are a header of the right kind, with the task's number and the client's socket each in its own field, marked as new, and then the request, or nothing for a notice. |
| Proxy.DisconnectLookupHits | TcpPorxyServer/TcpProxyServer.cpp:291-296 | The unchecked lookup of a lost connection's client finds it. |
| Proxy.ClientOutlivesMessages | TcpPorxyServer/TcpProxyServer.cpp:842-855 | While a packet of an HTTP socket is queued or handled, the socket has a client. |
| Proxy.AgentOutlivesMessages | TcpPorxyServer/TcpProxyServer.cpp:908-916 | While a packet of an agent connection is queued or handled, that connection is the known agent, so the unchecked use of it is safe. |
| Proxy.ActionKeepsCore | TcpPorxyServer/TcpProxyServer.cpp:211-418 | Every action of either server or of a callback keeps the counts of both servers and keeps the clients equal to the open HTTP sockets not released, the sessions among them, and both message pools whole. |
| Proxy.ActionKeepsLooked | TcpPorxyServer/TcpProxyServer.cpp:846-879 | Between the lookup of a client, after which the lock is given back, and its use, no action releases or replaces that client. |
| Proxy.ActionFits | TcpPorxyServer/TcpServer.cpp:1080-1235 | Every action adds to the history only what the life of the sockets allows next. |
| Proxy.ActionKeepsRoutes | TcpPorxyServer/TcpProxyServer.cpp:504-728 | Every action keeps the sessions' numbers among the requests forwarded by the client that has the socket now. |
| ProxyRuns.NoReleasedClientIsUsed | TcpPorxyServer/TcpProxyServer.cpp:846-879 | In every run every lookup hits, and the client that a thread uses after it gave the lock back is the one it looked up and was not released since. |
| ProxyRuns.ClientStaysWhileUsed | TcpPorxyServer/TcpProxyServer.cpp:842-845 | As long as a thread handles a request or is about to give its message back, the socket's client is the same one, as the comment there claims. |
| ProxyRuns.AgentStaysWhileUsed | TcpPorxyServer/TcpProxyServer.cpp:908-922 | As long as a thread handles a packet of the agent, the agent is the same connection. |
| ProxyRuns.CountsAreExact | TcpPorxyServer/TcpServer.cpp:799-801 | In every state of every run the count of an open socket is the number of its messages queued or in a thread's hands, in either direction; of a closed one there is no message. |
| ProxyRuns.ReleasedThenClosedOnce | TcpPorxyServer/TcpServer.cpp:1114-1123 | In every run the history of a socket repeats accept, one release by the observer, one close, and nothing else. |
| ProxyRuns.ReleasedOnlyWhenDrained | TcpPorxyServer/TcpServer.cpp:1098-1123 | From the release by the observer to the close no message of the socket is in flight. |
| ProxyRuns.NoSocketIsForgotten | TcpPorxyServer/TcpServer.cpp:1199-1229 | Every open socket is watched, being worked on by a thread, or disconnected with a message in flight that will close it. |
| ProxyRuns.NoneLeftBehind | TcpPorxyServer/TcpServer.cpp:1080-1235 | When all queues are empty and all threads free, every socket still open is being listened to. |
| ProxyRuns.ClientsAreOpenSockets | TcpPorxyServer/TcpProxyServer.cpp:211-222 | In every state the clients are exactly the HTTP sockets accepted and not released, and every session has its client. |
| ProxyRuns.MessagesAreConserved | TcpPorxyServer/TcpServer.cpp:736-1044 | In every state every pooled message is in exactly one of the idle list, a queue or one thread's hands. |
| ProxyRuns.RepliesReachTheirClient | TcpPorxyServer/TcpProxyServer.cpp:612-669 | Every reply is queued for a connection that had forwarded a request of that number and was not released in between, even if sockets are reused. |
| ProxyRuns.RequestNumbersAreUnique | TcpPorxyServer/Client.cpp:381-387 | One agent connection is never given the same request number twice, whichever clients send. |
| ProxyRuns.RepliesAnswerTheirRequest | TcpPorxyServer/TcpProxyServer.cpp:612-669 | If the client was accepted after the agent that answers, the reply answers the only request of that number this agent was given, and that request was the client's own. |
| Traffic.PacketsAreHandledInOrder | TcpPorxyServer/TcpServer.cpp:774-807 | In every run, what handler threads have taken, followed by what is queued, is what was received, in order and byte for byte. |
| Traffic.MessagesAreSentInOrder | TcpPorxyServer/TcpServer.cpp:1035-1044 | In every run, what the sender has taken, followed by what is queued for sending, is one message for each reply or command that was queued, in that order, for the right socket and with the right bytes. |
| Traffic.RepliesLeaveInOrder | TcpPorxyServer/TcpProxyServer.cpp:645-669 | The bytes that are taken for a client's socket are, piece by piece, those of the replies for it, in the order in which they came. |
| Answers.ForwardLogsAndKeeps | TcpPorxyServer/TcpProxyServer.cpp:529-586 | If the agent is on line and a message is free, a request is queued with its own bytes for the client that was looked up, under the agent's next number, and kept under that number unless a task of an earlier agent is; otherwise nothing is queued or kept. |
| Answers.TaskIsKept | TcpPorxyServer/Session.cpp:25-42 | A task that is kept for a client stays the same as long as the client is not released. |
| Answers.ReplyIsQueued | TcpPorxyServer/TcpProxyServer.cpp:612-669 | What comes back is queued for the socket's client just if the number is kept for it and a message is free. |
| Answers.RequestsAreAnswered | TcpPorxyServer/TcpProxyServer.cpp:504-728 | In every run, what comes back under the number of a request that was forwarded is queued for the connection that asked, if that was not released in between and a message is free. |
| Answers.NoticesAreNotKept | TcpPorxyServer/TcpProxyServer.cpp:298-305 | In every run, the number that the notice of a lost client was given is in no session, except where a request of the same number went to an earlier or later agent. |
| Answers.AgentIsOnline | TcpPorxyServer/TcpProxyServer.cpp:239-334 | In every run, an agent that was accepted is on line until the loss of its connection is told, and never again after that. |
| Answers.ClientIsOnline | TcpPorxyServer/TcpProxyServer.cpp:211-305 | A new client is on line, and goes off line just when the loss of its connection is told. |
| Growth.NextSize | TcpPorxyServer/libev/ev.c:1724-1743 | The new size is one more than the old one doubled, and doubled again just until the wanted size is reached; if that is more than a page takes, it is enlarged to fill the pages that it and one more entry need up to a slack of four pointers, whatever the size of a pointer. |
| TimerHeap.Parent | TcpPorxyServer/libev/ev.c:2034-2037 | The parent is the slot among whose four children a slot is; only the root is its own parent. |
| TimerHeap.UpHeap | TcpPorxyServer/libev/ev.c:2119-2139 | An entry that may be too far from the root moves to where it belongs: heap order holds, every watcher knows its slot, the entries are the same. |
| TimerHeap.DownHeap | TcpPorxyServer/libev/ev.c:2040-2081 | The same for an entry that may be too near to the root, also with fewer than four children. |
| TimerHeap.EarliestChild | TcpPorxyServer/libev/ev.c:2050-2071 | Both ways of looking at the children find one that none of the others precedes. |
| TimerHeap.AdjustHeap | TcpPorxyServer/libev/ev.c:2141-2149 | After any change of one entry the choice of direction restores the heap. |
| TimerHeap.ReHeap | TcpPorxyServer/libev/ev.c:2151-2161 | Any array of distinct watchers becomes a heap of the same entries with right slot numbers. |
| TimerHeap.LooseOneWay | TcpPorxyServer/libev/ev.c:2141-2149 | One comparison with the parent tells on which side of a changed entry the order can fail. |
| TimerHeap.RootIsEarliest | TcpPorxyServer/libev/ev.c:2902-2915 | In an ordered heap no entry precedes the root. |
| TimerHeap.AgreeAfterRemove | TcpPorxyServer/libev/ev.c:3707-3719 | Moving the last entry into a freed slot takes exactly one timer out of the heap. |
| Timers.TimerLoop.HeapIsLive | TcpPorxyServer/libev/ev.c:2902-2915 | The heap holds each started timer once, with its deadline, and nothing else. |
| Timers.TimerLoop.TimerStart | TcpPorxyServer/libev/ev.c:3673-3695 | A stopped timer is due its time from now, all other deadlines stay, and the heap stays valid; a started one is not touched. |
| Timers.TimerLoop.TimerStop | TcpPorxyServer/libev/ev.c:3697-3725 | The timer is no longer started nor pending, its time is relative again, all other deadlines stay, and the heap stays valid. |
| Timers.TimerLoop.TimerAgain | TcpPorxyServer/libev/ev.c:3727-3752 | A repeating timer, started or not, is due its repeat time from now; one that does not repeat is stopped; pending events are cleared. |
| Timers.TimerLoop.TimersReify | TcpPorxyServer/libev/ev.c:3119-3155 | Exactly the timers due are taken, earliest first and each once; repeating ones go on no earlier than now, the others are stopped; none that is due is left; the taken ones are fed in reverse. |
| Timers.TimerLoop.FeedReverseDone | TcpPorxyServer/libev/ev.c:1811-1817 | The collected watchers are fed, the last one first, and the collection is empty. |
| Pending.PendingQueues.FeedEvent | TcpPorxyServer/libev/ev.c:1785-1802 | Going by the watcher's own slot number has the effect of searching its stack: its pending events grow by those fed, in place or in a slot that is pushed, those of other watchers stay, and all back-pointers stay right. |
| Pending.PendingQueues.ClearPending | TcpPorxyServer/libev/ev.c:3574-3600 | The watcher's slot goes to the dummy, the events it had are returned, and all back-pointers stay right. |
| Pending.PendingQueues.InvokePending | TcpPorxyServer/libev/ev.c:3074-3092 | The two loops terminate, call what popping the highest non-empty stack calls whatever the callbacks feed and clear, and leave all stacks empty. |
| Pending.DrainTop | TcpPorxyServer/libev/ev.c:3078-3090 | Each round takes the top of the highest non-empty stack and leaves fewer slots. |
| PendingModel.ValidRepresents | TcpPorxyServer/libev/ev.c:2892-2900 | The watchers' fields describe the stacks: the watchers marked as pending are those with a slot, each with one. |
| PendingModel.DrainIsLegal | TcpPorxyServer/libev/ev.c:3074-3092 | Every call delivers exactly the events fed since the last call or clear of its watcher, no watcher of higher priority is pending then, and a cleared watcher is not called. |
| PendingModel.InvokeIsLegal | TcpPorxyServer/libev/ev.c:3074-3092 | The same for the calls that valid queues make, read off the watchers' own fields. |
| PendingModel.EachOnce | TcpPorxyServer/libev/ev.c:3074-3092 | If the callbacks feed nothing, every pending watcher is called exactly once, with its events, higher priorities first. |
| FiringOrder.UpperFirst | TcpPorxyServer/libev/ev.c:3074-3092 | Of two watchers on one stack the upper one is called first, whatever the callbacks feed. |
| FiringOrder.IsCalled | TcpPorxyServer/libev/ev.c:3074-3092 | A watcher with a slot that no callback clears is called, for at least the events of the slot. |
| FiringOrder.FedInReverse | TcpPorxyServer/libev/ev.c:1804-1817 | Feeding a list in reverse puts an earlier member of it above a later one of the same priority. |
| FiringOrder.TakenFireInOrder | TcpPorxyServer/libev/ev.c:3119-3155 | If expiring timers were not pending, all of them are called and those of one priority in the order of their deadlines. |
| FiringOrder.ExpireAndInvoke | TcpPorxyServer/libev/ev.c:3471-3488 | One round of the loop calls every due timer, earlier deadlines first within a priority, and leaves nothing pending. |
| PollTable.EntriesAfterRemove | TcpPorxyServer/libev/ev_poll.c:77-85 | Swap-removal removes one descriptor from the table, keeps all others, and keeps table and index pointing at each other. |
| PollTable.Table.PollidxInit | TcpPorxyServer/libev/ev_poll.c:42-49 | New index slots are marked unused and no other slot changes. |
| PollTable.Table.Modify | TcpPorxyServer/libev/ev_poll.c:51-86 | The set polled for changes in exactly the one descriptor: removed, or asking for input just if reading is wanted, for output just if writing is, and for nothing else. |
| Interest.IoLoop.FdChange | TcpPorxyServer/libev/ev.c:1924-1937 | The descriptor is on the list of changed ones, and every changed one is there exactly once. |
| Interest.IoLoop.WlistDel | TcpPorxyServer/libev/ev.c:3559-3571 | The watcher is unlinked, wherever it is, and the rest of the list stays linked in order. |
| Interest.IoLoop.IoStart | TcpPorxyServer/libev/ev.c:3628-3652 | The watcher is put in front of its descriptor's list, the descriptor marked as changed, and what the kernel knows not touched. |
| Interest.IoLoop.IoStop | TcpPorxyServer/libev/ev.c:3654-3671 | The watcher is off its list and will not be called for pending events; its descriptor is marked as changed. |
| Interest.IoLoop.CollectEvents | TcpPorxyServer/libev/ev.c:1908-1911 | Walking the list collects the union of its watchers' events. |
| Interest.IoLoop.FdReify | TcpPorxyServer/libev/ev.c:1865-1922 | Afterwards no descriptor is marked, and recorded events and poll table agree with the lists. |
| Interest.IoLoop.UnmarkedIsPolled | TcpPorxyServer/libev/ev.c:1865-1937 | At any time a descriptor that is not marked is polled for input just if a started watcher of it wants to read, for output just if one wants to write, and for nothing else; one polled for anything else is marked. |
| Interest.IoLoop.WhatIsPolled | TcpPorxyServer/libev/ev.c:1865-1922 | After reification the poll table holds exactly the descriptors that started watchers want events of, each asking for input just if one wants to read and for output just if one wants to write. |
| Interest.IoLoop.ReadinessIsFed | TcpPorxyServer/libev/ev_poll.c:119-125 | If some of reading and writing is possible on a descriptor that did not change, what poll reports of it is fed to exactly its started watchers that want some of it, each for just that part. |
| Interest.IoLoop.PollOne | TcpPorxyServer/libev/ev_poll.c:110-127 | A descriptor that poll finds bad is given up with all its watchers; what it reports of any other one goes to the watchers, unless the descriptor changed meanwhile. |
| Interest.DispatchedExactly | TcpPorxyServer/libev/ev.c:1830-1843 | An event is fed to exactly the started watchers of the descriptor that want some of it, each for the part it wants. |
| Interest.IoLoop.FdEvent | TcpPorxyServer/libev/ev.c:1845-1854 | An event on a descriptor that changed meanwhile is dropped, any other one dispatched. |
| Interest.IoLoop.FdKill | TcpPorxyServer/libev/ev.c:1939-1950 | All watchers of the descriptor are stopped and will be called for exactly an error, reading and writing; those of other descriptors stay. |
| Md5Spec.BlocksAppend | TcpPorxyServer/common/md5.c:253-288 | The registers after a message of whole blocks and more are those after continuing from the first part. |
| Md5Spec.PaddedIsWhole | TcpPorxyServer/common/md5.c:290-310 | Padding and length always end on a block boundary. |
| Md5Spec.ZerosAreFewest | TcpPorxyServer/common/md5.c:304-305 | No shorter padding leaves the length its place. |
| Md5Spec.FourSteps | TcpPorxyServer/common/md5.c:135-233 | Four unrolled operations with fixed registers are four steps of the rotating loop of section 3.4. |
| Md5.Round1 | TcpPorxyServer/common/md5.c:130-155 | The unrolled first round is steps 1 to 16. |
| Md5.Round2 | TcpPorxyServer/common/md5.c:157-181 | The unrolled second round is steps 17 to 32. |
| Md5.Round3 | TcpPorxyServer/common/md5.c:183-207 | The unrolled third round is steps 33 to 48. |
| Md5.Round4 | TcpPorxyServer/common/md5.c:209-233 | The unrolled fourth round is steps 49 to 64. |
| Md5.CountGrows | TcpPorxyServer/common/md5.c:263-267 | Two 32-bit words with the carry between them add lengths modulo 2^64 bits. |
| Md5.CountIsLength | TcpPorxyServer/common/md5.c:300-302 | The bytes saved before padding are the low 64 bits of the message length. |
| Md5.Md5State.Process | TcpPorxyServer/common/md5.c:87-242 | Processing a block is the RFC's compression of it. |
| Md5.Md5State.Append | TcpPorxyServer/common/md5.c:253-288 | Appending to the state of any message gives the state of the longer message: registers, count and live part of the buffer. |
| Md5.Md5State.Finish | TcpPorxyServer/common/md5.c:290-310 | The digest is the one RFC 1321 defines for the whole message. |
| Md5.PiecesDoNotMatter | TcpPorxyServer/common/md5.c:253-288 | Two states of one message are equal, however it was cut into pieces. |
| Md5.DigestOf | TcpPorxyServer/common/md5.c:313-319 | The digest of a string is the one of RFC 1321. |
| KnownAnswers.DigestOfEmpty | TcpPorxyServer/common/md5.c:87-319 | The digest of the empty message is the one in appendix A.5 of RFC 1321. |
| Tea.UnroundRound | TcpPorxyServer/common/Arithmetic.cpp:391-411 | A deciphering round undoes the enciphering round of the same number. |
| Tea.SumGrows | TcpPorxyServer/common/Arithmetic.cpp:392-412 | Both directions pass the same sums; deciphering starts from the sum that enciphering ends with. |
| Tea.Encipher | TcpPorxyServer/common/Arithmetic.cpp:382-398 | The loop makes the 32 rounds in order. |
| Tea.Decipher | TcpPorxyServer/common/Arithmetic.cpp:400-416 | The loop undoes the 32 rounds from the last to the first. |
| Tea.DecodeEncode | TcpPorxyServer/common/Arithmetic.cpp:79-123 | Decoding what was encoded gives the data with fewer than eight zero bytes behind it, for every key. |
| Tea.TeaEncode | TcpPorxyServer/common/Arithmetic.cpp:79-102 | Data is filled up to whole blocks and enciphered block by block in place; empty data is refused. |
| Tea.TeaDecode | TcpPorxyServer/common/Arithmetic.cpp:104-123 | Data of whole blocks is deciphered block by block in place; other data is refused with the code's numbers. |
| Tea.UnhexHex | TcpPorxyServer/common/Arithmetic.cpp:208-232 | Reading the hexadecimal form of any bytes gives them back. |
| Tea.AsciiToHex | TcpPorxyServer/common/Arithmetic.cpp:208-219 | The loop writes two digits for every byte. |
| Tea.HexToAscii | TcpPorxyServer/common/Arithmetic.cpp:221-232 | The loop reads two characters for every byte, as strtoul reads them, also if they are no digits. |
| KnownAnswers.FirstRound | TcpPorxyServer/common/Arithmetic.cpp:392-396 | One round on given words and a given key, with a negative word, worked out from the formula in C. |
| KnownAnswers.KeyOfText | TcpPorxyServer/common/Arithmetic.cpp:82-98 | A short key is filled with zeros and read as four words, lowest byte first. |
| Crc.Step8Linear | TcpPorxyServer/common/Arithmetic.cpp:77 | Eight steps of the division are linear: of a sum of words they make the sum of what they make of each. |
| Crc.TableIsStep8 | TcpPorxyServer/common/Arithmetic.cpp:42-75 | Each of the 256 words of the table is what eight steps of the division make of its index. |
| Crc.UpdateIsStep8 | TcpPorxyServer/common/Arithmetic.cpp:77 | The table update with a signed character equals eight steps from the sum of register and character. |
| Crc.DivideOctet | TcpPorxyServer/common/Arithmetic.cpp:77 | Dividing bit by bit, lowest bit first, by the reflected polynomial is taking eight steps at a time. |
| Crc.MakeCrc32 | TcpPorxyServer/common/Arithmetic.cpp:347-355 | The table-driven loop computes the bit-serial checksum of every byte sequence. |
| Crc.DetectsBursts | TcpPorxyServer/common/Arithmetic.cpp:347-355 | Messages of any length that differ only within four neighbouring bytes never have the same checksum. |
| KnownAnswers.ChecksumOfDigits | TcpPorxyServer/common/Arithmetic.cpp:347-355 | The checksum of the digits 1 to 9 is 0xCBF43926, the check value of CRC-32. |
| Base64.EncodeTableRight | TcpPorxyServer/common/Arithmetic.cpp:20-29 | The table of the encoder is Table 1 of RFC 4648. |
| Base64.DecodeTableRight | TcpPorxyServer/common/Arithmetic.cpp:31-40 | The table of the decoder inverts the alphabet, and no letter is padding or a line break. |
| Base64.Base64Length | TcpPorxyServer/common/Arithmetic.cpp:125-173 | The length of the encoded text is four times the number of groups. |
| Base64.Base64Encode | TcpPorxyServer/common/Arithmetic.cpp:125-173 | Shifting six bits at a time out of a word, groups first and the last one to three bytes apart, prints what section 4 of RFC 4648 prescribes. |
| Base64.Base64Decode | TcpPorxyServer/common/Arithmetic.cpp:175-206 | The two loops decode quad by quad, skip line breaks in front of a quad, and stop at the end of the text. |
| Base64.DecodedBase64 | TcpPorxyServer/common/Arithmetic.cpp:125-206 | Encoded data can be decoded and gives the data back. |
| Base64.DecodeAfter | TcpPorxyServer/common/Arithmetic.cpp:175-206 | Decoding two texts one behind the other gives the data of both. |
| Base64.BreaksDoNotMatter | TcpPorxyServer/common/Arithmetic.cpp:187-189 | Carriage returns and line feeds between quads do not change what is decoded. |
| KnownAnswers.TextsOfBase64 | TcpPorxyServer/common/Arithmetic.cpp:125-173 | Three test vectors of section 10 of RFC 4648, one for each length of the last group. |
| ConfFile.EntryRoundTrip | TcpPorxyServer/common/ConfFile.cpp:89-102 | A line that is read whole gives its key and value back if and only if they meet a condition on their bytes. |
| ConfFile.FileRoundTrip | TcpPorxyServer/common/ConfFile.cpp:36-108 | For every name and value, the file of this one setting restores it if and only if the name has a tab, neither holds a newline or a zero byte, header and entry each fit one read, and the entry line gives key and value back. |
| ConfFile.SettingRoundTrip | TcpPorxyServer/common/ConfFile.cpp:196-275 | The same if and only if through the file on disk, in the clear and with every cipher. |
| ConfFile.LongValueIsLost | TcpPorxyServer/common/ConfFile.cpp:39-78 | A concrete long value that survives a whole line but not its file. |
| ConfFile.EmptySettingHelps | TcpPorxyServer/common/ConfFile.cpp:78-107 | Two concrete settings that come back together although one of them would not alone: within a set the condition of a single setting is sufficient but not necessary. |
| ConfFile.LoadAdds | TcpPorxyServer/common/ConfFile.cpp:78-107 | Reading any file keeps the settings there were, and adds only settings with a tab, without newline and zero byte, and no longer than the file allows. |
| ConfSets.SetRoundTrip | TcpPorxyServer/common/ConfFile.cpp:36-108 | A set of settings comes back from its file, in whatever order it was printed, if and only if the first read of each entry gives its key and value back and, where an entry is longer than a line, the section's empty setting is in the set; the only-if half leaves out sets with both an entry longer than a line and a tab inside a key. |
| ConfSets.SetRoundTripOnDisk | TcpPorxyServer/common/ConfFile.cpp:196-275 | The same through the file on disk, in the clear and with every cipher. |
| ConfSets.FitsAlone | TcpPorxyServer/common/ConfFile.cpp:78-107 | For an entry that fits a line the condition within a set is the condition of the setting alone. |
| ConfFile.PrintedTextOverruns | TcpPorxyServer/common/ConfFile.cpp:249-268 | A concrete setting whose printed file, enciphered with any cipher, overruns its buffer by a byte. |
| ConfFile.HexFitsBuffer | TcpPorxyServer/common/ConfFile.cpp:249-268 | The hexadecimal form with the zero behind it fits the buffer that is allocated if and only if the length of the text is not one more than a multiple of eight. |
| ConfFile.LoadPrint | TcpPorxyServer/common/ConfFile.cpp:225-247 | Parsing what was printed adds the settings one by one, whatever order, sections and trailing zero bytes. |
| ConfFile.LoadPrinted | TcpPorxyServer/common/ConfFile.cpp:78-107 | Parsing a printed file restores the settings. |
| ConfFile.DiskRoundTrip | TcpPorxyServer/common/ConfFile.cpp:249-272 | A text comes back from an enciphered file with fewer than eight zero bytes behind it. |
| KnownAnswers.PrintedSetting | TcpPorxyServer/common/ConfFile.cpp:225-247 | The bytes that are printed for a given setting. |
| ConfFile.SettingsSurvive | TcpPorxyServer/common/ConfFile.cpp:36-108 | Settings that fit their lines survive being written and read, with and without a cipher. |
| ConfFile.ParseEntry | TcpPorxyServer/common/ConfFile.cpp:89-102 | Calling the tokenizer until it is done gives the first two pieces between delimiters. |
| ConfFile.Configuration.LoadText | TcpPorxyServer/common/ConfFile.cpp:78-107 | Reading line by line gives the settings that the specification reads off the whole text, added to those there were. |
| ConfFile.Configuration.LoadConfFile | TcpPorxyServer/common/ConfFile.cpp:36-108 | The same through the cipher. |
| ConfFile.Configuration.PrintText | TcpPorxyServer/common/ConfFile.cpp:225-247 | The iteration that carries the current section prints what the specification prints. |
| ConfFile.Configuration.UpdateConfFile | TcpPorxyServer/common/ConfFile.cpp:196-275 | The file holds the printed settings, enciphered if there is a cipher. |

## Left out

- URL and entity escaping, MAC strings and character sets: simpler members of the codec files.
- `EraseSpace` and `ErasePrivate` of the configuration class: plain map operations.
- Both HTTP parsers, the HTTP client, logging, and the wrappers of threads, mutexes and sockets: not part of this model.
- libev's other backends and watcher kinds (epoll, kqueue, port, select, signals, children, stat, inotify, periodics, idle, fork, embed): kernel-bound, or repetitions of what is modelled.
- System calls: what `accept`, `recv` and `send` return is any value; clocks are a real number.
- Interleaving inside a critical section: a close decision and the observer's release that follows it are one step, as are the check whether the agent is on line and the queueing that follows. A client's lookup and its use by a handler thread are two steps.
- Re-reading `m->fd` behind the return of `m` to its pool (TcpServer.cpp:1031): the socket is the one read at the start of the method.
- Liveness: that a handler or the sender thread will run is not modelled; what is proved is that a step is there to be taken.
- Proxy.ActionKeepsCore: the tables of a server are maps over all socket numbers; that the arrays of the code are long enough for every socket number is not stated.
- ProxyRuns.RepliesAnswerTheirRequest: request numbers start again with a new agent, so for a client that is older than the agent nothing is said about which agent connection its request went to.
- Receiver.Framer.Parse: header lengths from 4096 to 8192 are excluded, although the code lets them pass its check. A command of up to 8175 bytes of parameters fits the buffer, and the code copies it past the end of a command on its stack, which has no defined result. A longer one can never be complete in the buffer, so once the buffer is full the outer loop (Client.cpp:255-264) takes no more bytes of the packet and goes round for ever, holding the client's mutex.
- Receiver.Framer.CutCommands: the same header lengths are excluded.
- Receiver.Client.ParseCached: the same header lengths are excluded.
- Channel.DeliveredEverything: stated over the packets that were queued; packets dropped because the handle queue is too long are not part of the run, and each command is one whole write: what a short one does to the stream is stated apart (Agent.CutIsPartial, Agent.ShortWrite).
- Channel.DeliveredIsPrefix: commands of more than 4095 bytes of parameters are not sent; the header check of the receiver lets lengths up to 8192 pass, and the precondition of Receiver.Client.ParseData keeps them out.
- Receiver.Client.ParseData: packet numbers are unbounded, the 32-bit counter is not wrapped; packets that announce 4096 to 8192 bytes of parameters are excluded, as in Receiver.Framer.Parse.
- Proxy.CommandIsRight: numbers of requests are unbounded, and a header field holds their low 32 bits; the code's counters are 32 bits wide and their overflow is not modelled.
- Traffic.MessagesAreSentInOrder: order and bytes of what the sender takes; how many calls of `send` it takes to write a message, and a message that is given up because its socket failed, are not modelled.
- Reassembly.AnswersAreReassembled: calls for one request are made one after the other, as its one request thread does; calls for other requests interleave with them in any way.
- Observer.ProxyServer.OnParseCmd: shutting down the socket is left to the caller; the check that the client is the known agent is part of the precondition.
- Agent.ProxyAgent.SendProxyDisconnect: the counter is below its largest value; its signed overflow is not modelled.
- Servers.TcpServer.QueueForSending: a message's bytes are one value; the length field and the terminating zero are not modelled apart.
- Observer.ProxyServer.OnClose: disconnecting all clients when the agent is closed is a shutdown of their sockets, whose effect is a later end of file like any other.
- Timers.TimerLoop.TimersReify: time is exact; rounding of the floating-point additions is not modelled.
- Pending.PendingQueues.FeedEvent: priorities are in range, so the clamping at start is not modelled; an event mask is the set of its bit numbers.
- FiringOrder.ExpireAndInvoke: what periodics, idle and check watchers feed between expiry and invocation is not part of the round.
- Interest.IoLoop.FdReify: only the poll backend; the handles of Windows sockets are not modelled.
- ConfSets.SetRoundTrip: for sets that have both an entry longer than a line and a key with a tab in it only the if half is stated; a part of such an entry can be read as a header that holds a tab, and a line behind it as a setting of that section.
- Growth.NextSize: sizes are unbounded; overflow is not modelled. The loops that grow their arrays pass pointers of eight bytes and the element sizes that go with them.
- Md5.Md5State.Append: the length of one piece is below 2^31, and its number of bits is taken modulo 2^32 as the conversion does in practice.
- Tea.Encipher: a word has 32 bits, as a C long has on 32-bit platforms; where long has 64 bits a block is 16 bytes at a stride of eight, neighbouring blocks overlap, and the round trip does not hold.
- ConfFile.Configuration.LoadConfFile: an enciphered file of odd length is excluded, because the code then reads one byte past its buffer.
- Crc.MakeCrc32: the register has 32 bits; where long is wider, the complement also sets the bits above, which are not modelled.
- Base64.Base64Decode: a text that ends within a quad or holds characters above 127 is excluded, because the code then reads outside its text or its table; the return values are the lengths of the results and are not modelled apart.
- Tea.HexToAscii: an odd number of characters is excluded, because the code then reads one byte past its buffer.
- ConfFile.Configuration.LoadText: a line that is a single opening bracket without end of line counts as no header; the code looks at the byte in front of its buffer there.
- ConfFile.Configuration.UpdateConfFile: failures to open, remove or write files are not modelled; the order of the map is any order.
