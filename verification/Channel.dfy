/**
 * The whole channel from agent to server as a transition system. Agent threads write the
 * commands of their calls, one command per write; the network cuts the byte stream anywhere;
 * the server numbers what it receives; and any handler thread may parse any packet next.
 */
module Channel {
  import opened Bytes
  import opened Command
  import opened Agent
  import opened Receiver
  import opened Reorder

  /** The largest number of bytes one receive call takes. */
  const MAX_PACKET: nat := MAX_BUFFER_LEN - 1

  datatype Call = SendBody(seqNo: int32, fd: int32, body: seq<byte>) | SendDisconnect(seqNo: int32, fd: int32)

  function Commands(call: Call): seq<Cmd> {
    match call
    case SendBody(seqNo, fd, body) => Fragments(seqNo, fd, body)
    case SendDisconnect(seqNo, fd) => [DisconnectCmd(seqNo, fd)]
  }

  datatype Sys = Sys(
    calls: seq<Call>,
    /** How many commands of each call have been written. */
    progress: seq<nat>,
    /** The commands on the stream, and the call each one belongs to. */
    written: seq<Cmd>,
    author: seq<nat>,
    /** The packets received so far, by number. */
    packets: seq<seq<byte>>,
    /** The packets in the handle queue or in a handler's hands. */
    waiting: set<int>,
    client: State
  )

  function Stream(s: Sys): seq<byte> {
    Wire(s.written)
  }

  datatype Step =
    /** A thread inside call `k` writes the call's next command. */
    | Write(k: nat)
    /** One receive call takes the next `n` bytes of the stream and queues them under the next number. */
    | Recv(n: nat)
    /** A handler thread parses packet `i`. */
    | Handle(i: nat)

  ghost predicate Init(s: Sys, capacity: nat) {
    && |s.progress| == |s.calls|
    && (forall k :: 0 <= k < |s.progress| ==> s.progress[k] == 0)
    && s.written == [] && s.author == [] && s.packets == [] && s.waiting == {}
    && s.client == Fresh(capacity)
  }

  predicate Enabled(s: Sys, step: Step) {
    match step
    case Write(k) =>
      k < |s.calls| == |s.progress| && s.progress[k] < |Commands(s.calls[k])|
    case Recv(n) =>
      1 <= n <= MAX_PACKET && |Concat(s.packets)| + n <= |Stream(s)|
    case Handle(i) =>
      i in s.waiting && i < |s.packets|
  }

  function Apply(s: Sys, step: Step): Sys
    requires Enabled(s, step)
  {
    match step
    case Write(k) =>
      s.(progress := s.progress[k := s.progress[k] + 1],
         written := s.written + [Commands(s.calls[k])[s.progress[k]]],
         author := s.author + [k])
    case Recv(n) =>
      var taken := |Concat(s.packets)|;
      s.(packets := s.packets + [Stream(s)[taken..taken + n]],
         waiting := s.waiting + {|s.packets|})
    case Handle(i) =>
      s.(waiting := s.waiting - {i}, client := Receive(s.client, i, s.packets[i]))
  }

  /** A run of the system: each state follows from the one before by a step. */
  ghost predicate IsRun(run: seq<Sys>, capacity: nat) {
    && run != []
    && Init(run[0], capacity)
    && (forall i :: 0 <= i < |run| - 1 ==> Follows(run[i], run[i + 1]))
  }

  ghost predicate Follows(s: Sys, t: Sys) {
    exists step :: Enabled(s, step) && t == Apply(s, step)
  }

  /** The state a run has reached. */
  ghost function Final(run: seq<Sys>): Sys
    requires run != []
  {
    run[|run| - 1]
  }

  /** Those of the first commands that call `k` wrote. */
  function Own(cmds: seq<Cmd>, author: seq<nat>, k: nat): seq<Cmd>
    requires |cmds| <= |author|
  {
    if cmds == [] then [] else
    var last := |cmds| - 1;
    Own(cmds[..last], author, k) + if author[last] == k then [cmds[last]] else []
  }

  ghost predicate AgentOk(s: Sys) {
    && |s.progress| == |s.calls|
    && |s.author| == |s.written|
    && AllWellFormed(s.written)
    && forall k :: 0 <= k < |s.calls| ==>
      && s.progress[k] <= |Commands(s.calls[k])|
      && Own(s.written, s.author, k) == Commands(s.calls[k])[..s.progress[k]]
  }

  ghost predicate ServerOk(s: Sys, capacity: nat) {
    && Concat(s.packets) <= Stream(s)
    && (forall i :: i in s.waiting ==> 0 <= i < |s.packets|)
    && Tracks(s.client, s.packets, s.waiting, capacity)
  }

  ghost predicate Inv(s: Sys, capacity: nat) {
    AgentOk(s) && ServerOk(s, capacity)
  }

  lemma CommandsWellFormed(call: Call)
    ensures AllWellFormed(Commands(call))
  {
    match call
    case SendBody(seqNo, fd, body) =>
      FragmentsShape(seqNo, fd, body);
      var cmds := Fragments(seqNo, fd, body);
      assert forall i :: 0 <= i < |cmds| ==> IsFragment(cmds[i], seqNo, fd, i == |cmds| - 1);
    case SendDisconnect(seqNo, fd) =>
  }

  lemma {:induction false} OwnIgnoresTail(cmds: seq<Cmd>, author: seq<nat>, more: seq<nat>, k: nat)
    requires |cmds| <= |author|
    ensures Own(cmds, author + more, k) == Own(cmds, author, k)
    decreases |cmds|
  {
    if cmds != [] {
      OwnIgnoresTail(cmds[..|cmds| - 1], author, more, k);
    }
  }

  lemma WriteKeepsAgent(s: Sys, j: nat)
    requires AgentOk(s) && Enabled(s, Write(j))
    ensures AgentOk(Apply(s, Write(j)))
  {
    var t := Apply(s, Write(j));
    var cmd := Commands(s.calls[j])[s.progress[j]];
    CommandsWellFormed(s.calls[j]);
    forall k | 0 <= k < |s.calls|
      ensures t.progress[k] <= |Commands(s.calls[k])|
      ensures Own(t.written, t.author, k) == Commands(s.calls[k])[..t.progress[k]]
    {
      OwnIgnoresTail(s.written, s.author, [j], k);
      assert t.written[..|t.written| - 1] == s.written;
    }
  }

  lemma WriteKeepsServer(s: Sys, j: nat, capacity: nat)
    requires ServerOk(s, capacity) && Enabled(s, Write(j))
    ensures ServerOk(Apply(s, Write(j)), capacity)
  {
    hide Tracks;
    WireAppend(s.written, [Commands(s.calls[j])[s.progress[j]]]);
  }

  lemma RecvKeepsServer(s: Sys, n: nat, capacity: nat)
    requires ServerOk(s, capacity) && Enabled(s, Recv(n))
    ensures ServerOk(Apply(s, Recv(n)), capacity)
  {
    hide Tracks, Wire;
    var t := Apply(s, Recv(n));
    var taken := |Concat(s.packets)|;
    assert t.packets[..|t.packets| - 1] == s.packets;
    assert Concat(t.packets) == Stream(s)[..taken] + Stream(s)[taken..taken + n];
    QueueTracks(s.client, s.packets, s.waiting, Stream(s)[taken..taken + n], capacity);
  }

  /** Queueing one more packet. */
  lemma QueueTracks(st: State, packets: seq<seq<byte>>, waiting: set<int>, data: seq<byte>, capacity: nat)
    requires Tracks(st, packets, waiting, capacity)
    ensures Tracks(st, packets + [data], waiting + {|packets|}, capacity)
  {
    hide FrontOf, Frame;
    var more := packets + [data];
    assert forall n :: 0 <= n <= |packets| ==> more[..n] == packets[..n];
    if st.failed && RanDry(st, packets, waiting) {
      var d :| st.expected < d < |packets| && d !in st.cache && d !in waiting;
      assert d !in waiting + {|packets|};
    }
  }

  lemma StepKeepsInv(s: Sys, step: Step, capacity: nat)
    requires Inv(s, capacity) && Enabled(s, step)
    ensures Inv(Apply(s, step), capacity)
  {
    match step
    case Write(k) =>
      WriteKeepsAgent(s, k);
      WriteKeepsServer(s, k, capacity);
    case Recv(n) =>
      RecvKeepsServer(s, n, capacity);
    case Handle(i) =>
      ReceiveTracks(s.client, s.packets, s.waiting, i, capacity);
  }

  lemma {:induction false} RunKeepsInv(run: seq<Sys>, capacity: nat)
    requires IsRun(run, capacity)
    ensures Inv(Final(run), capacity)
    decreases |run|
  {
    var last := |run| - 1;
    if last == 0 {
      var s := run[0];
      assert s.packets[..0] == [];
    } else {
      RunKeepsInv(run[..last], capacity);
      assert Follows(run[last - 1], run[last - 1 + 1]);
      var step :| Enabled(run[last - 1], step) && run[last] == Apply(run[last - 1], step);
      StepKeepsInv(run[last - 1], step, capacity);
    }
  }

  lemma JoinedIsSent(s: Sys, n: nat)
    requires AgentOk(s) && Concat(s.packets) <= Stream(s) && n <= |s.packets|
    ensures Joined(s.packets, n).halt == Partial
    ensures Joined(s.packets, n).cmds <= s.written
  {
    hide FrontOf, Frame;
    ConcatAppend(s.packets[..n], s.packets[n..]);
    assert s.packets[..n] + s.packets[n..] == s.packets;
    FramePrefix(s.written, Concat(s.packets[..n]));
  }

  /** In every reachable state the commands delivered are a beginning of the commands sent, byte for byte. */
  lemma DeliveredIsPrefix(run: seq<Sys>, capacity: nat)
    requires IsRun(run, capacity)
    ensures var s := Final(run);
      s.client.delivered <= s.written && !s.client.oversize
  {
    hide FrontOf, Frame, Joined;
    RunKeepsInv(run, capacity);
    var s := Final(run);
    JoinedIsSent(s, s.client.expected);
    if s.client.expected < |s.packets| {
      JoinedIsSent(s, s.client.expected + 1);
    }
  }

  /** The receiver of a reachable state fails on a packet exactly when it is early and no message is free to keep it. */
  lemma FailsOnEarlyPacket(run: seq<Sys>, capacity: nat, i: nat)
    requires IsRun(run, capacity)
    requires var s := Final(run); Enabled(s, Handle(i)) && !s.client.failed
    ensures var s := Final(run);
      Apply(s, Handle(i)).client.failed <==> i != s.client.expected && s.client.free == 0
  {
    hide FrontOf, Frame, Joined;
    RunKeepsInv(run, capacity);
    var s := Final(run);
    ReceiveTracks(s.client, s.packets, s.waiting, i, capacity);
    var next := Apply(s, Handle(i)).client;
    if i == s.client.expected && next.failed {
      JoinedIsSent(s, next.expected + 1);
      assert false;
    }
  }

  /** The step handles a packet ahead of its turn while no message is free to keep it. */
  ghost predicate RunsDry(s: Sys, t: Sys) {
    && !s.client.failed && s.client.free == 0
    && exists i: nat :: i != s.client.expected && Enabled(s, Handle(i)) && t == Apply(s, Handle(i))
  }

  lemma FailsJustOnDryStep(run: seq<Sys>, capacity: nat, t: Sys)
    requires IsRun(run, capacity) && Follows(Final(run), t) && !Final(run).client.failed
    ensures t.client.failed <==> RunsDry(Final(run), t)
  {
    hide Receive;
    var s := Final(run);
    var step :| Enabled(s, step) && t == Apply(s, step);
    if step.Handle? {
      FailsOnEarlyPacket(run, capacity, step.i);
    }
    if RunsDry(s, t) {
      var i: nat :| i != s.client.expected && Enabled(s, Handle(i)) && t == Apply(s, Handle(i));
      FailsOnEarlyPacket(run, capacity, i);
    }
  }

  lemma ShorterRun(run: seq<Sys>, capacity: nat)
    requires IsRun(run, capacity) && |run| > 1
    ensures var before := run[..|run| - 1];
      IsRun(before, capacity) && Final(before) == run[|run| - 2] && Follows(Final(before), Final(run))
  {
    assert Follows(run[|run| - 2], run[|run| - 2 + 1]);
  }

  /** In every run the receiver has failed just if at some step of it the pool ran dry while a packet was missing. */
  lemma {:induction false} FailsOnlyWhenDry(run: seq<Sys>, capacity: nat)
    requires IsRun(run, capacity)
    ensures Final(run).client.failed <==> exists k :: 0 <= k < |run| - 1 && RunsDry(run[k], run[k + 1])
    decreases |run|
  {
    hide RunsDry, Follows;
    var last := |run| - 1;
    if last > 0 {
      var before := run[..last];
      ShorterRun(run, capacity);
      FailsOnlyWhenDry(before, capacity);
      assert forall k :: 0 <= k < last ==> before[k] == run[k];
      if Final(before).client.failed {
        FailureIsFinal(run, capacity, last - 1, last);
      } else {
        FailsJustOnDryStep(before, capacity, run[last]);
        assert run[last] == run[last - 1 + 1];
      }
    }
  }

  /** Without a failure, all that was sent, received and handled has been delivered, and nothing is left over. */
  lemma DeliveredEverything(run: seq<Sys>, capacity: nat)
    requires IsRun(run, capacity)
    requires var s := Final(run);
      s.waiting == {} && !s.client.failed && |Concat(s.packets)| == |Stream(s)|
    ensures var s := Final(run);
      && s.client.delivered == s.written
      && s.client.expected == |s.packets| && s.client.cache == map[] && s.client.residue == []
      && s.client.free == capacity
  {
    hide FrontOf, Frame;
    RunKeepsInv(run, capacity);
    var s := Final(run);
    AllHandled(s.client, s.packets, capacity);
    assert Concat(s.packets) == Stream(s);
    FrameWire(s.written);
  }

  /** A pool with room for all packets behind the expected one but one has not run dry, however many were handled before. */
  lemma LargePoolNeverFails(run: seq<Sys>, capacity: nat)
    requires IsRun(run, capacity)
    requires |Final(run).packets| <= Final(run).client.expected + capacity + 1
    ensures !Final(run).client.failed
  {
    hide FrontOf, Frame, Joined, RanDry;
    RunKeepsInv(run, capacity);
    var s := Final(run);
    if s.client.failed {
      if RanDry(s.client, s.packets, s.waiting) {
        DryPoolIsTooSmall(s.client, s.packets, s.waiting, capacity);
      } else {
        JoinedIsSent(s, s.client.expected + 1);
      }
      assert false;
    }
  }

  /** After a failure nothing changes any more at the receiver: no packet is kept and no command delivered. */
  lemma {:induction false} FailureIsFinal(run: seq<Sys>, capacity: nat, i: nat, j: nat)
    requires IsRun(run, capacity)
    requires i <= j < |run| && run[i].client.failed
    ensures run[j].client == run[i].client
    decreases j - i
  {
    if i < j {
      FailureIsFinal(run, capacity, i, j - 1);
      assert Follows(run[j - 1], run[j - 1 + 1]);
    }
  }

  // Agents that follow one another share the pool, and a cache is not given back at the end of its connection.

  /**
   * The runs of one agent after the other, each with the pool that the one before left. A
   * connection is closed only when none of its packets is queued or handled any more.
   */
  ghost predicate Succession(runs: seq<seq<Sys>>, capacity: nat) {
    runs != [] ==>
      && IsRun(runs[0], capacity) && Final(runs[0]).waiting == {}
      && Succession(runs[1..], Final(runs[0]).client.free)
  }

  lemma {:induction false} SuccessionRuns(runs: seq<seq<Sys>>, capacity: nat)
    requires Succession(runs, capacity)
    ensures forall i :: 0 <= i < |runs| ==> runs[i] != []
    decreases |runs|
  {
    hide Init, Follows;
    if runs != [] {
      SuccessionRuns(runs[1..], Final(runs[0]).client.free);
      assert forall i :: 0 < i < |runs| ==> runs[i] == runs[1..][i - 1];
    }
  }

  /** The pool that is left when all these agents are gone. */
  ghost function PoolLeft(runs: seq<seq<Sys>>, capacity: nat): nat
    requires forall i :: 0 <= i < |runs| ==> runs[i] != []
  {
    if runs == [] then capacity else PoolLeft(runs[1..], Final(runs[0]).client.free)
  }

  /** A connection leaves the pool whole, or, if its receiver failed, empty: all messages are in the dead cache. */
  lemma PoolAfterRun(run: seq<Sys>, capacity: nat)
    requires IsRun(run, capacity) && Final(run).waiting == {}
    ensures var st := Final(run).client;
      if st.failed then st.free == 0 && |st.cache| == capacity else st.free == capacity && st.cache == map[]
  {
    hide FrontOf, Frame, Joined, RanDry;
    RunKeepsInv(run, capacity);
    var s := Final(run);
    if !s.client.failed {
      AllHandled(s.client, s.packets, capacity);
    } else if !RanDry(s.client, s.packets, s.waiting) {
      JoinedIsSent(s, s.client.expected + 1);
      assert false;
    } else {
      DryIsEmpty(s.client, s.packets, s.waiting);
    }
  }

  lemma DryIsEmpty(st: State, packets: seq<seq<byte>>, waiting: set<int>)
    requires RanDry(st, packets, waiting)
    ensures st.free == 0
  {
  }

  /** At some step of the run a packet was handled ahead of its turn while no message was free to keep it. */
  ghost predicate EverDry(run: seq<Sys>) {
    exists k :: 0 <= k < |run| - 1 && RunsDry(run[k], run[k + 1])
  }

  lemma {:induction false} EmptyStaysEmpty(runs: seq<seq<Sys>>)
    requires Succession(runs, 0)
    ensures (SuccessionRuns(runs, 0); PoolLeft(runs, 0) == 0)
    decreases |runs|
  {
    hide Init, Follows;
    SuccessionRuns(runs, 0);
    if runs != [] {
      PoolAfterRun(runs[0], 0);
      SuccessionRuns(runs[1..], 0);
      EmptyStaysEmpty(runs[1..]);
    }
  }

  /**
   * However many agents follow one another, the pool is whole as long as none of them ran dry,
   * and lost for good once one did.
   */
  lemma {:induction false} PoolIsWholeOrLost(runs: seq<seq<Sys>>, capacity: nat)
    requires Succession(runs, capacity)
    ensures (SuccessionRuns(runs, capacity);
      PoolLeft(runs, capacity) == if exists i :: 0 <= i < |runs| && EverDry(runs[i]) then 0 else capacity)
    decreases |runs|
  {
    hide Init, Follows, EverDry;
    SuccessionRuns(runs, capacity);
    if runs != [] {
      var free := Final(runs[0]).client.free;
      PoolAfterRun(runs[0], capacity);
      FailsJustIfDry(runs[0], capacity);
      SuccessionRuns(runs[1..], free);
      assert forall i :: 0 < i < |runs| ==> runs[i] == runs[1..][i - 1];
      if EverDry(runs[0]) {
        EmptyStaysEmpty(runs[1..]);
      } else {
        PoolIsWholeOrLost(runs[1..], capacity);
        assert forall i :: 0 <= i < |runs[1..]| ==> runs[1..][i] == runs[i + 1];
      }
    }
  }

  /** A run goes on with any step that is enabled. */
  lemma Extend(run: seq<Sys>, capacity: nat, step: Step) returns (more: seq<Sys>)
    requires IsRun(run, capacity) && Enabled(Final(run), step)
    ensures IsRun(more, capacity) && more == run + [Apply(Final(run), step)]
  {
    more := run + [Apply(Final(run), step)];
    forall i | 0 <= i < |more| - 1
      ensures Follows(more[i], more[i + 1])
    {
      if i < |run| - 1 {
        assert Follows(run[i], run[i + 1]);
      }
    }
  }

  lemma WireIsLong(c: Cmd)
    ensures |Wire([c])| >= HEADER_LEN
  {
    assert Wire([c]) == EncodeCmd(c) + Wire([c][1..]);
  }

  /** The agent writes n commands. */
  lemma WriteMany(n: nat, capacity: nat) returns (run: seq<Sys>)
    ensures IsRun(run, capacity)
    ensures var s := Final(run); |Stream(s)| >= n && s.packets == [] && s.waiting == {} && s.client == Fresh(capacity)
  {
    hide Follows, EncodeCmd;
    var calls := seq(n, _ => SendDisconnect(0, 0));
    run := [Sys(calls, seq(n, _ => 0), [], [], [], {}, Fresh(capacity))];
    for w := 0 to n
      invariant IsRun(run, capacity)
      invariant var s := Final(run);
        && |s.progress| == n && s.calls == calls && (forall k :: w <= k < n ==> s.progress[k] == 0)
        && |Stream(s)| >= w && s.packets == [] && s.waiting == {} && s.client == Fresh(capacity)
    {
      var s := Final(run);
      WireAppend(s.written, [DisconnectCmd(0, 0)]);
      WireIsLong(DisconnectCmd(0, 0));
      run := Extend(run, capacity, Write(w));
    }
  }

  /** The server receives the stream byte by byte, in n packets. */
  lemma ReceiveMany(n: nat, capacity: nat) returns (run: seq<Sys>)
    ensures IsRun(run, capacity)
    ensures var s := Final(run); |s.packets| == n && s.client == Fresh(capacity) && s.waiting == Below(n)
  {
    hide Follows, Wire;
    run := WriteMany(n, capacity);
    for r := 0 to n
      invariant IsRun(run, capacity)
      invariant var s := Final(run);
        |Stream(s)| >= n && |s.packets| == r == |Concat(s.packets)| && s.client == Fresh(capacity) && s.waiting == Below(r)
    {
      var s := Final(run);
      run := Extend(run, capacity, Recv(1));
      assert Final(run).packets[..r] == s.packets;
    }
  }

  /** Whatever the size of the pool, there is a run that loses it: more packets than it holds overtake the first one. */
  lemma PoolCanBeLost(capacity: nat) returns (run: seq<Sys>)
    ensures IsRun(run, capacity) && Final(run).waiting == {} && EverDry(run)
    ensures Succession([run], capacity) && PoolLeft([run], capacity) == 0
  {
    hide Follows, Wire, Accept, Drain;
    run := ReceiveMany(capacity + 2, capacity);
    for h := 1 to capacity + 1
      invariant IsRun(run, capacity)
      invariant var s := Final(run);
        && |s.packets| == capacity + 2 && s.waiting == Below(capacity + 2) - Below(h) + {0}
        && s.client.expected == 0 && !s.client.failed && s.client.free == capacity + 1 - h
    {
      run := Extend(run, capacity, Handle(h));
    }
    var before := run;
    run := Extend(run, capacity, Handle(capacity + 1));
    assert RunsDry(run[|before| - 1], run[|before| - 1 + 1]);
    var dry := run;
    run := Extend(run, capacity, Handle(0));
    assert run[|before| - 1] == dry[|before| - 1] && run[|before|] == dry[|before|];
    assert Final(run).waiting == {};
    assert [run][1..] == [];
    PoolAfterRun(run, capacity);
    FailsJustIfDry(run, capacity);
  }

  lemma FailsJustIfDry(run: seq<Sys>, capacity: nat)
    requires IsRun(run, capacity)
    ensures Final(run).client.failed <==> EverDry(run)
  {
    FailsOnlyWhenDry(run, capacity);
  }

  lemma {:induction false} OwnPrefix(cmds: seq<Cmd>, n: nat, author: seq<nat>, k: nat)
    requires n <= |cmds| <= |author|
    ensures Own(cmds[..n], author, k) <= Own(cmds, author, k)
    decreases |cmds|
  {
    if n == |cmds| {
      assert cmds[..n] == cmds;
    } else {
      var last := |cmds| - 1;
      OwnPrefix(cmds[..last], n, author, k);
      assert cmds[..last][..n] == cmds[..n];
    }
  }

  lemma ParamsPrefix(cmds: seq<Cmd>, n: nat)
    requires n <= |cmds|
    ensures Params(cmds[..n]) <= Params(cmds)
  {
    hide Params;
    ParamsAppend(cmds[..n], cmds[n..]);
    assert cmds[..n] + cmds[n..] == cmds;
  }

  /** What has been delivered of one call, whichever threads interleaved their writes with it. */
  function DeliveredOf(s: Sys, k: nat): seq<Cmd>
    requires |s.client.delivered| <= |s.author|
  {
    Own(s.client.delivered, s.author, k)
  }

  /** The parameters of the first commands of a body are its first bytes; those of all of them are the body. */
  lemma BodyFromCommands(call: Call, own: seq<Cmd>)
    requires call.SendBody? && own <= Commands(call)
    ensures Params(own) <= call.body
    ensures own == Commands(call) ==> Params(own) == call.body
  {
    hide Params, Fragments;
    FragmentsCarryBody(call.seqNo, call.fd, call.body);
    ParamsPrefix(Commands(call), |own|);
    assert own == Commands(call)[..|own|];
  }

  /** What is delivered of a call is a beginning of its commands, and all that was written of it in the end. */
  lemma DeliveredInCallOrder(run: seq<Sys>, capacity: nat, k: nat)
    requires IsRun(run, capacity)
    requires k < |Final(run).calls|
    ensures var s := Final(run);
      && |s.client.delivered| <= |s.author| && |s.progress| == |s.calls|
      && DeliveredOf(s, k) <= Commands(s.calls[k])
      && (s.client.delivered == s.written && s.progress[k] == |Commands(s.calls[k])| ==> DeliveredOf(s, k) == Commands(s.calls[k]))
  {
    hide Own, Commands, Tracks;
    RunKeepsInv(run, capacity);
    DeliveredIsPrefix(run, capacity);
    var s := Final(run);
    assert s.client.delivered == s.written[..|s.client.delivered|];
    OwnPrefix(s.written, |s.client.delivered|, s.author, k);
  }

  /**
   * Each call arrives in order and byte for byte: the parameters delivered of it are a beginning
   * of its body, and when everything was delivered the whole of it.
   */
  lemma CallsAreReassembled(run: seq<Sys>, capacity: nat, k: nat)
    requires IsRun(run, capacity)
    requires var s := Final(run); k < |s.calls| && s.calls[k].SendBody?
    ensures var s := Final(run);
      && |s.client.delivered| <= |s.author| && |s.progress| == |s.calls|
      && Params(DeliveredOf(s, k)) <= s.calls[k].body
      && (s.client.delivered == s.written && s.progress[k] == |Commands(s.calls[k])| ==> Params(DeliveredOf(s, k)) == s.calls[k].body)
  {
    hide Own, Commands, Params;
    DeliveredInCallOrder(run, capacity, k);
    var s := Final(run);
    BodyFromCommands(s.calls[k], DeliveredOf(s, k));
  }
}
