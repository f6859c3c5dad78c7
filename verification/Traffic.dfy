/**
 * What passes through the proxy in a run: in which order queued messages leave, what they carry,
 * and which requests are answered.
 */
module Traffic {
  import opened Bytes
  import opened Collections
  import opened Command
  import opened Lifetime
  import opened Proxy
  import opened ProxyRuns

  /** Bytes that came from a socket or go to it. */
  datatype Piece = Piece(fd: nat, data: seq<byte>)

  function Pieces(q: seq<Msg>): seq<Piece> {
    seq(|q|, i requires 0 <= i < |q| => Piece(q[i].fd, q[i].data))
  }

  // Packets are handled in the order in which they arrived.

  /** The bytes that a server receives in an action. */
  function Arriving(s: Sys, a: Action, which: Which): seq<Piece>
    requires Allowed(s, a)
  {
    if a.Local? && a.which == which && a.step.Admit? then [Piece(Of(s, which).threads[MAIN].fd, a.step.data)] else []
  }

  /** What a handler thread has in its hands after it took a message. */
  function TakenToHandle(a: Action, s': Sys, which: Which): seq<Piece> {
    if a.Local? && a.which == which && a.step.TakeToHandle? && a.step.t < |Of(s', which).threads| && Of(s', which).threads[a.step.t].Handling?
    then [Piece(Of(s', which).threads[a.step.t].fd, Of(s', which).threads[a.step.t].data)]
    else []
  }

  /** What the event loop has received and not queued yet. */
  function Entering(s: Server): seq<Piece> {
    if |s.threads| > MAIN && s.threads[MAIN].Admitting? then [Piece(s.threads[MAIN].fd, s.threads[MAIN].data)] else []
  }

  ghost function Arrived(states: seq<Sys>, actions: seq<Action>, which: Which, i: nat): seq<Piece>
    requires IsRun(states, actions) && i <= |actions|
  {
    if i == 0 then [] else Arrived(states, actions, which, i - 1) + Arriving(states[i - 1], actions[i - 1], which)
  }

  ghost function TakenByHandlers(states: seq<Sys>, actions: seq<Action>, which: Which, i: nat): seq<Piece>
    requires IsRun(states, actions) && i <= |actions|
  {
    if i == 0 then [] else TakenByHandlers(states, actions, which, i - 1) + TakenToHandle(actions[i - 1], states[i], which)
  }

  lemma PiecesAppend(q: seq<Msg>, m: Msg)
    ensures Pieces(q + [m]) == Pieces(q) + [Piece(m.fd, m.data)]
  {
  }

  lemma PiecesTail(q: seq<Msg>)
    requires q != []
    ensures Pieces(q) == [Piece(q[0].fd, q[0].data)] + Pieces(q[1..])
  {
  }

  /** A server's own step keeps what arrived in order. */
  lemma StepHandles(s: Server, step: Step)
    requires Enabled(s, step)
    ensures var s' := Apply(s, step);
      && (if step.TakeToHandle? then
            s'.threads[step.t].Handling? && [Piece(s'.threads[step.t].fd, s'.threads[step.t].data)] + (Pieces(s'.handleQ) + Entering(s')) == Pieces(s.handleQ) + Entering(s)
          else Pieces(s'.handleQ) + Entering(s') == Pieces(s.handleQ) + Entering(s) + if step.Admit? then [Piece(s.threads[MAIN].fd, step.data)] else [])
  {
    hide Pieces;
    var main := s.threads[MAIN];
    if step.TakeToHandle? {
      PiecesTail(s.handleQ);
    }
    if step.Enqueue? {
      PiecesAppend(s.handleQ, Msg(main.id, main.fd, main.data));
    }
  }

  /** The messages received and not taken yet, in order. */
  function Pending(s: Server): seq<Piece> {
    Pieces(s.handleQ) + Entering(s)
  }

  /** Nothing arrives at the server or is taken by a handler. */
  predicate SameInward(s: Server, s': Server) {
    s'.handleQ == s.handleQ && Entering(s') == Entering(s)
  }

  lemma AcceptedInward(s: Server, fd: nat, watch: bool)
    requires MAIN < |s.threads| && s.threads[MAIN] == Free
    ensures SameInward(s, Accepted(s, fd, watch)) && Accepted(s, fd, watch).sendQ == s.sendQ
  {
  }

  lemma ToldInward(s: Server)
    requires MAIN < |s.threads| && s.threads[MAIN].Leaving?
    ensures SameInward(s, Told(s)) && Told(s).sendQ == s.sendQ
  {
  }

  lemma QueuedInward(s: Server, fd: nat, data: seq<byte>)
    requires s.idle != []
    ensures SameInward(s, QueuedToSend(s, fd, data))
    ensures Pieces(QueuedToSend(s, fd, data).sendQ) == Pieces(s.sendQ) + [Piece(fd, data)]
  {
    PiecesAppend(s.sendQ, Msg(s.idle[0], fd, data));
  }

  lemma DecidedInward(s: Server)
    requires MAIN < |s.threads| && s.threads[MAIN].Deciding?
    ensures SameInward(s, Decided(s)) && Decided(s).sendQ == s.sendQ
  {
  }

  lemma ReleasedInward(s: Server, t: nat)
    requires DoneWithMessage(s, t)
    ensures SameInward(s, Released(s, t)) && Released(s, t).sendQ == s.sendQ
  {
  }

  lemma ClosedInward(s: Server, t: nat)
    requires t < |s.threads| && s.threads[t].Closing?
    ensures SameInward(s, Closed(s, t)) && Closed(s, t).sendQ == s.sendQ
  {
  }

  lemma ParsedInward(s: Server, t: nat)
    requires Enabled(s, Parsed(t))
    ensures SameInward(s, Apply(s, Parsed(t))) && Apply(s, Parsed(t)).sendQ == s.sendQ
  {
  }

  lemma SendInward(s: Sys, fd: nat, conn: nat, task: Task, needReturn: bool)
    ensures var s' := SendToAgent(s, fd, conn, task, needReturn); s'.http == s.http && SameInward(s.vnc, s'.vnc)
  {
    hide QueuedToSend, CommandOf, KeepTask, EncodeCmd, SameInward;
    if s.vnc.idle != [] && s.agent.Some? {
      QueuedInward(s.vnc, s.agent.value.fd, EncodeCmd(CommandOf(task, s.agent.value.nextSeq, fd)));
    }
    Unmoved(s.vnc);
  }

  lemma Unmoved(s: Server)
    ensures SameInward(s, s)
  {
  }

  lemma TellInward(s: Sys, which: Which, other: Which)
    requires Core(s) && Allowed(s, Tell(which))
    ensures (LookupsHit(s, Tell(which)); SameInward(Of(s, other), Of(AfterTell(s, which), other)))
  {
    hide Core, Told, SendToAgent, SameInward;
    LookupsHit(s, Tell(which));
    ToldInward(Of(s, which));
    Unmoved(Of(s, other));
    if which == Http {
      var fd := s.http.threads[MAIN].fd;
      SendInward(s.(http := Told(s.http), clients := s.clients[fd := s.clients[fd].(online := false)]), fd, s.clients[fd].conn, Notice, false);
    }
  }

  lemma ForwardInward(s: Sys, t: nat, other: Which)
    requires Core(s) && Allowed(s, ForwardRequest(t))
    ensures SameInward(Of(s, other), Of(After(s, ForwardRequest(t)), other))
  {
    hide Core, Apply, SendToAgent, SameInward;
    ParsedInward(s.http, t);
    Unmoved(Of(s, other));
    SendInward(s.(http := Apply(s.http, Parsed(t)), looked := s.looked - {t}), s.http.threads[t].fd, s.looked[t], Request(s.http.threads[t].data), true);
  }

  lemma OthersHandleNothing(s: Sys, a: Action, which: Which)
    requires Core(s) && Allowed(s, a) && !(a.Local? && a.which == which)
    ensures (LookupsHit(s, a); SameInward(Of(s, which), Of(After(s, a), which)))
  {
    hide Core, SameInward, Accepted, Told, Decided, Released, Closed, QueuedToSend, Apply, SendToAgent, AfterTell;
    LookupsHit(s, a);
    Unmoved(Of(s, which));
    match a {
      case Local(_, _) =>
      case AcceptOn(w, fd, watcherFree) =>
        AcceptedInward(Of(s, w), fd, (w == Http || s.agent.None?) && watcherFree);
      case Tell(w) =>
        TellInward(s, w, which);
      case Decide(w) =>
        DecidedInward(Of(s, w));
      case LookUp(t) =>
      case ForwardRequest(t) =>
        ForwardInward(s, t, which);
      case ReturnReply(t, fd, seqNo, param, left) =>
        if s.http.idle != [] {
          QueuedInward(s.http, fd, ReplyData(param, left));
        }
      case Release(w, t) =>
        ReleasedInward(Of(s, w), t);
      case CloseFd(w, t) =>
        ClosedInward(Of(s, w), t);
    }
  }

  lemma ActionHandles(s: Sys, a: Action, which: Which)
    requires Core(s) && Allowed(s, a)
    ensures (LookupsHit(s, a); var s' := After(s, a);
      TakenToHandle(a, s', which) + Pending(Of(s', which)) == Pending(Of(s, which)) + Arriving(s, a, which))
  {
    hide Core, Apply, Pieces, Entering;
    LookupsHit(s, a);
    if a.Local? && a.which == which {
      LocalHandles(s, which, a.step);
    } else {
      OthersHandleNothing(s, a, which);
    }
    Regroup([], [], Pending(Of(After(s, a), which)));
    Regroup([], [], Pending(Of(s, which)));
  }

  lemma LocalHandles(s: Sys, which: Which, step: Step)
    requires Allowed(s, Local(which, step))
    ensures var a, s' := Local(which, step), With(s, which, Apply(Of(s, which), step));
      TakenToHandle(a, s', which) + Pending(Of(s', which)) == Pending(Of(s, which)) + Arriving(s, a, which)
  {
    hide Pieces, Entering, Apply;
    StepHandles(Of(s, which), step);
    Regroup([], [], Pending(Apply(Of(s, which), step)));
    Regroup([], [], Pending(Of(s, which)));
    SameThreads(Of(s, which), step);
  }

  lemma SameThreads(s: Server, step: Step)
    requires Enabled(s, step)
    ensures |Apply(s, step).threads| == |s.threads|
  {
  }

  /** In every run, the handlers take the packets in the order in which they arrived, and no packet is lost or doubled. */
  lemma {:induction false} PacketsAreHandledInOrder(states: seq<Sys>, actions: seq<Action>, which: Which, i: nat)
    requires IsRun(states, actions) && i <= |actions|
    ensures TakenByHandlers(states, actions, which, i) + (Pieces(Of(states[i], which).handleQ) + Entering(Of(states[i], which)))
      == Arrived(states, actions, which, i)
    decreases i
  {
    hide Core, StagesOk, RoutesOk, LookedOk, Start, Hits, After, TakenToHandle, Arriving, Entering, Pieces;
    if i == 0 {
      NothingAtStart(states[0], which);
    } else {
      PacketsAreHandledInOrder(states, actions, which, i - 1);
      RunKeepsInv(states, actions, i - 1);
      StepKeepsAll(states[i - 1], actions[i - 1]);
      ActionHandles(states[i - 1], actions[i - 1], which);
      var before := TakenByHandlers(states, actions, which, i - 1);
      Regroup(before, TakenToHandle(actions[i - 1], states[i], which), Pending(Of(states[i], which)));
      Regroup(before, Pending(Of(states[i - 1], which)), Arriving(states[i - 1], actions[i - 1], which));
    }
  }

  lemma NothingAtStart(s: Sys, which: Which)
    requires Start(s)
    ensures Pending(Of(s, which)) == [] && Pieces(Of(s, which).sendQ) == [] && Of(s, which).sendQ == []
  {
  }

  // Messages are sent in the order in which they were queued, with the bytes they were queued with.

  /** What the sender has in its hands after it took a message. */
  function TakenToSend(a: Action, s': Sys, which: Which): seq<Piece> {
    if a == Local(which, Step.TakeToSend) && SENDER < |Of(s', which).threads| && Of(s', which).threads[SENDER].Sending?
    then [Piece(Of(s', which).threads[SENDER].fd, Of(s', which).threads[SENDER].data)]
    else []
  }

  ghost function Sent(states: seq<Sys>, actions: seq<Action>, which: Which, i: nat): seq<Piece>
    requires IsRun(states, actions) && i <= |actions|
  {
    if i == 0 then [] else Sent(states, actions, which, i - 1) + TakenToSend(actions[i - 1], states[i], which)
  }

  /** The event is the queueing of a message on this server. */
  predicate Goes(e: Event, which: Which) {
    if which == Http then e.Reply? else e.Forward?
  }

  /**
   * The piece is what the event says: a reply's data for the client's socket, or the command with
   * the task, its number and the client's socket, for the socket of the agent accepted at that
   * position of the log.
   */
  predicate Carries(log: seq<Event>, e: Event, piece: Piece) {
    match e
    case Reply(fd, conn, agent, seqNo, data) => piece == Piece(fd, data)
    case Forward(fd, conn, agent, seqNo, task) =>
      agent < |log| && log[agent] == Event.Accept(Vnc, piece.fd) && IsCommand(piece.data, task, seqNo, fd)
    case _ => false
  }

  /** The pieces are those of the server's events in the log, one for each, in order. */
  ghost predicate AllCarried(log: seq<Event>, which: Which, pieces: seq<Piece>) {
    if log == [] then pieces == [] else
    var before, e := log[..|log| - 1], log[|log| - 1];
    if Goes(e, which)
    then pieces != [] && Carries(before, e, pieces[|pieces| - 1]) && AllCarried(before, which, pieces[..|pieces| - 1])
    else AllCarried(before, which, pieces)
  }

  lemma CarriedOne(log: seq<Event>, e: Event, which: Which, pieces: seq<Piece>, piece: Piece)
    requires AllCarried(log, which, pieces)
    ensures !Goes(e, which) ==> AllCarried(log + [e], which, pieces)
    ensures Goes(e, which) && Carries(log, e, piece) ==> AllCarried(log + [e], which, pieces + [piece])
  {
    assert (log + [e])[..|log|] == log && (pieces + [piece])[..|pieces|] == pieces;
  }

  /** An action either leaves the messages to be sent as they are, but for one that the sender takes, or queues one that its event describes. */
  ghost predicate Queues(s: Sys, s': Sys, which: Which, taken: seq<Piece>) {
    var q, q' := Pieces(Of(s, which).sendQ), Pieces(Of(s', which).sendQ);
    || (taken + q' == q && (s'.log == s.log || exists e :: s'.log == s.log + [e] && !Goes(e, which)))
    || (taken == [] && exists e, piece :: s'.log == s.log + [e] && Goes(e, which) && q' == q + [piece] && Carries(s.log, e, piece))
  }

  lemma StepSends(s: Server, step: Step)
    requires Enabled(s, step)
    ensures var s' := Apply(s, step);
      if step.TakeToSend? then s'.threads[SENDER].Sending? && [Piece(s'.threads[SENDER].fd, s'.threads[SENDER].data)] + Pieces(s'.sendQ) == Pieces(s.sendQ)
      else s'.sendQ == s.sendQ
  {
    hide Pieces;
    if step.TakeToSend? {
      PiecesTail(s.sendQ);
    }
  }

  /** The agent is the one whose accept is at its position in the log. */
  ghost predicate AgentLogged(s: Sys) {
    s.agent.Some? ==> s.agent.value.conn < |s.log| && s.log[s.agent.value.conn] == Event.Accept(Vnc, s.agent.value.fd)
  }

  lemma CommandCarries(log: seq<Event>, fd: nat, conn: nat, agent: nat, seqNo: int, task: Task, to: nat)
    requires agent < |log| && log[agent] == Event.Accept(Vnc, to)
    ensures Carries(log, Forward(fd, conn, agent, seqNo, task), Piece(to, EncodeCmd(CommandOf(task, seqNo, fd))))
  {
    hide EncodeCmd, CommandOf, IsCommand;
    CommandIsRight(task, seqNo, fd);
  }

  lemma QuietQueue(s: Sys, s': Sys, which: Which)
    requires Of(s', which).sendQ == Of(s, which).sendQ
    requires s'.log == s.log || (|s'.log| == |s.log| + 1 && s'.log == s.log + [s'.log[|s.log|]] && !Goes(s'.log[|s.log|], which))
    ensures Queues(s, s', which, [])
  {
    Regroup([], [], Pieces(Of(s, which).sendQ));
  }

  lemma OneQueued(s: Sys, s': Sys, which: Which, e: Event, piece: Piece)
    requires s'.log == s.log + [e] && Goes(e, which) && Pieces(Of(s', which).sendQ) == Pieces(Of(s, which).sendQ) + [piece] && Carries(s.log, e, piece)
    ensures Queues(s, s', which, [])
  {
  }

  lemma SameBefore(s: Sys, r: Sys, s': Sys, which: Which)
    requires r.log == s.log && Of(r, which).sendQ == Of(s, which).sendQ && Queues(r, s', which, [])
    ensures Queues(s, s', which, [])
  {
  }

  lemma SendQueues(s: Sys, fd: nat, conn: nat, task: Task, needReturn: bool, which: Which)
    requires AgentLogged(s)
    ensures Queues(s, SendToAgent(s, fd, conn, task, needReturn), which, [])
  {
    hide Queues, QueuedToSend, CommandOf, KeepTask, EncodeCmd, Carries, Pieces;
    var s' := SendToAgent(s, fd, conn, task, needReturn);
    if s'.log == s.log || which == Http {
      QuietQueue(s, s', which);
    } else {
      var agent := s.agent.value;
      var data := EncodeCmd(CommandOf(task, agent.nextSeq, fd));
      QueuedInward(s.vnc, agent.fd, data);
      CommandCarries(s.log, fd, conn, agent.conn, agent.nextSeq, task, agent.fd);
      OneQueued(s, s', which, Forward(fd, conn, agent.conn, agent.nextSeq, task), Piece(agent.fd, data));
    }
  }

  lemma TellQueues(s: Sys, which: Which, other: Which)
    requires Core(s) && Allowed(s, Tell(which)) && AgentLogged(s)
    ensures (LookupsHit(s, Tell(which)); Queues(s, AfterTell(s, which), other, []))
  {
    hide Core, Told, SendToAgent, Queues;
    LookupsHit(s, Tell(which));
    ToldInward(Of(s, which));
    if which == Http {
      var fd := s.http.threads[MAIN].fd;
      var r := s.(http := Told(s.http), clients := s.clients[fd := s.clients[fd].(online := false)]);
      SendQueues(r, fd, s.clients[fd].conn, Notice, false, other);
      SameBefore(s, r, AfterTell(s, which), other);
    } else {
      QuietQueue(s, AfterTell(s, which), other);
    }
  }

  lemma ForwardQueues(s: Sys, t: nat, other: Which)
    requires Core(s) && Allowed(s, ForwardRequest(t)) && AgentLogged(s)
    ensures Queues(s, After(s, ForwardRequest(t)), other, [])
  {
    hide Core, Apply, SendToAgent, Queues;
    ParsedInward(s.http, t);
    var r := s.(http := Apply(s.http, Parsed(t)), looked := s.looked - {t});
    SendQueues(r, s.http.threads[t].fd, s.looked[t], Request(s.http.threads[t].data), true, other);
    SameBefore(s, r, After(s, ForwardRequest(t)), other);
  }

  lemma ReplyQueues(s: Sys, fd: nat, seqNo: int, data: seq<byte>, which: Which)
    requires s.agent.Some? && (fd in s.sessions ==> fd in s.clients)
    ensures Queues(s, ReplyToClient(s, fd, seqNo, data), which, [])
  {
    hide Queues, QueuedToSend, Pieces;
    var s' := ReplyToClient(s, fd, seqNo, data);
    if s'.log == s.log || which == Vnc {
      QuietQueue(s, s', which);
    } else {
      QueuedInward(s.http, fd, data);
      OneQueued(s, s', which, s'.log[|s.log|], Piece(fd, data));
    }
  }

  lemma LocalQueues(s: Sys, which: Which, step: Step, other: Which)
    requires Allowed(s, Local(which, step))
    ensures var s' := With(s, which, Apply(Of(s, which), step)); Queues(s, s', other, TakenToSend(Local(which, step), s', other))
  {
    hide Apply, Pieces;
    StepSends(Of(s, which), step);
    SameThreads(Of(s, which), step);
    Regroup([], [], Pieces(Of(s, other).sendQ));
  }

  lemma AcceptQueues(s: Sys, which: Which, fd: nat, watcherFree: bool, other: Which)
    requires Allowed(s, AcceptOn(which, fd, watcherFree))
    ensures Queues(s, AfterAccept(s, which, fd, watcherFree), other, [])
  {
    hide Queues, Accepted;
    AcceptedInward(Of(s, which), fd, (which == Http || s.agent.None?) && watcherFree);
    QuietQueue(s, AfterAccept(s, which, fd, watcherFree), other);
  }

  lemma DecideQueues(s: Sys, which: Which, other: Which)
    requires Allowed(s, Decide(which))
    ensures Queues(s, After(s, Decide(which)), other, [])
  {
    hide Queues;
    DecidedInward(Of(s, which));
    QuietQueue(s, After(s, Decide(which)), other);
  }

  lemma ReleaseQueues(s: Sys, which: Which, t: nat, other: Which)
    requires Allowed(s, Release(which, t))
    ensures Queues(s, After(s, Release(which, t)), other, [])
  {
    hide Queues;
    ReleasedInward(Of(s, which), t);
    QuietQueue(s, After(s, Release(which, t)), other);
  }

  lemma CloseQueues(s: Sys, which: Which, t: nat, other: Which)
    requires Allowed(s, CloseFd(which, t))
    ensures Queues(s, After(s, CloseFd(which, t)), other, [])
  {
    hide Queues;
    ClosedInward(Of(s, which), t);
    QuietQueue(s, After(s, CloseFd(which, t)), other);
  }

  lemma ActionQueues(s: Sys, a: Action, which: Which)
    requires Core(s) && Allowed(s, a) && AgentLogged(s)
    ensures (LookupsHit(s, a); Queues(s, After(s, a), which, TakenToSend(a, After(s, a), which)))
  {
    hide Core, Queues, Accepted, Told, Decided, Released, Closed, QueuedToSend, Apply, SendToAgent, AfterAccept, AfterTell, AfterOnClose, ReplyToClient;
    LookupsHit(s, a);
    match a {
      case Local(w, step) =>
        LocalQueues(s, w, step, which);
      case AcceptOn(w, fd, watcherFree) =>
        AcceptQueues(s, w, fd, watcherFree, which);
      case Tell(w) =>
        TellQueues(s, w, which);
      case Decide(w) =>
        DecideQueues(s, w, which);
      case LookUp(t) =>
        QuietQueue(s, After(s, a), which);
      case ForwardRequest(t) =>
        ForwardQueues(s, t, which);
      case ReturnReply(t, fd, seqNo, param, left) =>
        ReplyQueues(s, fd, seqNo, ReplyData(param, left), which);
      case Release(w, t) =>
        ReleaseQueues(s, w, t, which);
      case CloseFd(w, t) =>
        CloseQueues(s, w, t, which);
    }
  }

  lemma ActionKeepsAgentLogged(s: Sys, a: Action)
    requires Core(s) && Allowed(s, a) && AgentLogged(s)
    ensures (LookupsHit(s, a); AgentLogged(After(s, a)))
  {
    hide Core, Accepted, Told, Decided, Released, Closed, QueuedToSend, Apply, SendToAgent;
    LookupsHit(s, a);
    if a == Tell(Http) {
      var fd := s.http.threads[MAIN].fd;
      SendKeepsAgentLogged(s.(http := Told(s.http), clients := s.clients[fd := s.clients[fd].(online := false)]), fd, s.clients[fd].conn, Notice, false);
    } else if a.ForwardRequest? {
      SendKeepsAgentLogged(s.(http := Apply(s.http, Parsed(a.t)), looked := s.looked - {a.t}), s.http.threads[a.t].fd, s.looked[a.t], Request(s.http.threads[a.t].data), true);
    }
  }

  lemma SendKeepsAgentLogged(s: Sys, fd: nat, conn: nat, task: Task, needReturn: bool)
    requires AgentLogged(s)
    ensures AgentLogged(SendToAgent(s, fd, conn, task, needReturn))
  {
    hide QueuedToSend, CommandOf, KeepTask, EncodeCmd;
  }

  lemma {:induction false} RunKeepsAgentLogged(states: seq<Sys>, actions: seq<Action>, i: nat)
    requires IsRun(states, actions) && i <= |actions|
    ensures AgentLogged(states[i])
    decreases i
  {
    hide Core, StagesOk, RoutesOk, LookedOk, Hits, After;
    if i > 0 {
      RunKeepsAgentLogged(states, actions, i - 1);
      RunKeepsInv(states, actions, i - 1);
      StepKeepsAll(states[i - 1], actions[i - 1]);
      ActionKeepsAgentLogged(states[i - 1], actions[i - 1]);
    }
  }

  lemma CarriedAfter(s: Sys, s': Sys, which: Which, sent: seq<Piece>, taken: seq<Piece>)
    requires Queues(s, s', which, taken) && AllCarried(s.log, which, sent + Pieces(Of(s, which).sendQ))
    ensures AllCarried(s'.log, which, sent + taken + Pieces(Of(s', which).sendQ))
  {
    hide AllCarried, Carries, Pieces;
    var q, q' := Pieces(Of(s, which).sendQ), Pieces(Of(s', which).sendQ);
    if taken + q' == q && (s'.log == s.log || exists e :: s'.log == s.log + [e] && !Goes(e, which)) {
      Regroup(sent, taken, q');
      if s'.log != s.log {
        var e :| s'.log == s.log + [e] && !Goes(e, which);
        CarriedOne(s.log, e, which, sent + q, Piece(0, []));
      }
    } else {
      var e, piece :| s'.log == s.log + [e] && Goes(e, which) && q' == q + [piece] && Carries(s.log, e, piece);
      Regroup([], [], sent);
      Regroup(sent, q, [piece]);
      CarriedOne(s.log, e, which, sent + q, piece);
    }
  }

  /**
   * In every run, what the sender has taken, followed by what is queued, is exactly what the log
   * says was queued: nothing is lost, doubled, overtaken or changed.
   */
  lemma {:induction false} MessagesAreSentInOrder(states: seq<Sys>, actions: seq<Action>, which: Which, i: nat)
    requires IsRun(states, actions) && i <= |actions|
    ensures AllCarried(states[i].log, which, Sent(states, actions, which, i) + Pieces(Of(states[i], which).sendQ))
    decreases i
  {
    hide Core, StagesOk, RoutesOk, LookedOk, Hits, After, TakenToSend, AllCarried, Queues, Pieces;
    if i == 0 {
      NothingAtStart(states[0], which);
      NothingCarried(which);
    } else {
      MessagesAreSentInOrder(states, actions, which, i - 1);
      RunKeepsInv(states, actions, i - 1);
      RunKeepsAgentLogged(states, actions, i - 1);
      StepKeepsAll(states[i - 1], actions[i - 1]);
      ActionQueues(states[i - 1], actions[i - 1], which);
      CarriedAfter(states[i - 1], states[i], which, Sent(states, actions, which, i - 1), TakenToSend(actions[i - 1], states[i], which));
    }
  }

  lemma NothingCarried(which: Which)
    ensures AllCarried([], which, [] + [])
  {
  }

  /** The data of those pieces that are for a socket. */
  function DataFor(pieces: seq<Piece>, fd: nat): seq<seq<byte>> {
    if pieces == [] then [] else
    var last := |pieces| - 1;
    DataFor(pieces[..last], fd) + if pieces[last].fd == fd then [pieces[last].data] else []
  }

  /** The data of the replies for a socket that are in the log. */
  function RepliesTo(log: seq<Event>, fd: nat): seq<seq<byte>> {
    if log == [] then [] else
    var last := |log| - 1;
    RepliesTo(log[..last], fd) + if log[last].Reply? && log[last].fd == fd then [log[last].data] else []
  }

  lemma {:induction false} CarriedReplies(log: seq<Event>, pieces: seq<Piece>, fd: nat)
    requires AllCarried(log, Http, pieces)
    ensures DataFor(pieces, fd) == RepliesTo(log, fd)
    decreases |log|
  {
    if log != [] {
      var before, e := log[..|log| - 1], log[|log| - 1];
      CarriedReplies(before, if e.Reply? then pieces[..|pieces| - 1] else pieces, fd);
    }
  }

  /** What is sent to a client's socket is, piece by piece, the replies for it, in the order in which they came. */
  lemma RepliesLeaveInOrder(states: seq<Sys>, actions: seq<Action>, i: nat, fd: nat)
    requires IsRun(states, actions) && i <= |actions|
    ensures DataFor(Sent(states, actions, Http, i) + Pieces(states[i].http.sendQ), fd) == RepliesTo(states[i].log, fd)
  {
    hide Start, Hits, After, Sent, AllCarried, Pieces;
    MessagesAreSentInOrder(states, actions, Http, i);
    CarriedReplies(states[i].log, Sent(states, actions, Http, i) + Pieces(states[i].http.sendQ), fd);
  }
}
