/** The sending half of the agent's server connection. */
module Agent {
  import opened Bytes
  import opened Collections
  import opened Command

  const MAX_FRAGMENT: nat := MAX_PARAM_LEN - 1

  function Min(a: nat, b: nat): nat {
    if a < b then a else b
  }

  function FragmentHeader(len: nat, seqNo: int32, fd: int32): Header
    requires len <= MAX_FRAGMENT
  {
    Header(COMMAND_PROXY, len, seqNo, fd, false)
  }

  /** The commands that carry one body to the server. */
  function Fragments(seqNo: int32, fd: int32, body: seq<byte>): (cmds: seq<Cmd>)
    decreases |body|
  {
    if body == [] then [] else
    var n := Min(|body|, MAX_FRAGMENT);
    [Cmd(FragmentHeader(n, seqNo, fd), body[..n])] + Fragments(seqNo, fd, body[n..])
  }

  function DisconnectCmd(seqNo: int32, fd: int32): Cmd {
    Cmd(Header(COMMAND_PROXY_DISCONNECT, 0, seqNo, fd, true), [])
  }

  /** The parameter bytes of the commands, in order. */
  function Params(cmds: seq<Cmd>): seq<byte> {
    if cmds == [] then [] else Params(cmds[..|cmds| - 1]) + cmds[|cmds| - 1].param
  }

  lemma {:induction false} ParamsAppend(left: seq<Cmd>, right: seq<Cmd>)
    ensures Params(left + right) == Params(left) + Params(right)
  {
    if right == [] {
      assert left + right == left;
    } else {
      var front := right[..|right| - 1];
      assert (left + right)[..|left + right| - 1] == left + front;
      ParamsAppend(left, front);
      Regroup(Params(left), Params(front), right[|right| - 1].param);
    }
  }

  /** Fragmentation loses nothing and keeps the order. */
  lemma {:induction false} FragmentsCarryBody(seqNo: int32, fd: int32, body: seq<byte>)
    ensures Params(Fragments(seqNo, fd, body)) == body
    decreases |body|
  {
    if body != [] {
      var cmds := Fragments(seqNo, fd, body);
      var n := |cmds[0].param|;
      FragmentsCarryBody(seqNo, fd, body[n..]);
      ParamsAppend([cmds[0]], cmds[1..]);
      assert cmds == [cmds[0]] + cmds[1..];
      assert Params([cmds[0]]) == cmds[0].param;
      assert body[..n] + body[n..] == body;
    }
  }

  /** Every fragment repeats the call's request number and socket; only the last may be short, and none is empty. */
  predicate IsFragment(cmd: Cmd, seqNo: int32, fd: int32, last: bool) {
    && cmd.WellFormed()
    && cmd.header.kind == COMMAND_PROXY && cmd.header.seqNo == seqNo && cmd.header.fd == fd && !cmd.header.isNew
    && (if last then |cmd.param| > 0 else |cmd.param| == MAX_FRAGMENT)
  }

  predicate AreFragments(cmds: seq<Cmd>, seqNo: int32, fd: int32) {
    forall i :: 0 <= i < |cmds| ==> IsFragment(cmds[i], seqNo, fd, i == |cmds| - 1)
  }

  lemma {:induction false} FragmentsShape(seqNo: int32, fd: int32, body: seq<byte>)
    ensures AreFragments(Fragments(seqNo, fd, body), seqNo, fd)
    ensures Fragments(seqNo, fd, body) == [] <==> body == []
    decreases |body|
  {
    if body != [] {
      var cmds := Fragments(seqNo, fd, body);
      var n := Min(|body|, MAX_FRAGMENT);
      var first, rest := Cmd(FragmentHeader(n, seqNo, fd), body[..n]), Fragments(seqNo, fd, body[n..]);
      FragmentsShape(seqNo, fd, body[n..]);
      forall i | 0 <= i < |cmds|
        ensures IsFragment(cmds[i], seqNo, fd, i == |cmds| - 1)
      {
        assert cmds[i] == if i == 0 then first else rest[i - 1];
      }
    }
  }

  /** The fragment that starts at `offset`, and what is left after it. */
  lemma FragmentAt(seqNo: int32, fd: int32, body: seq<byte>, offset: nat, n: nat)
    requires offset < |body|
    requires n == Min(|body| - offset, MAX_FRAGMENT)
    ensures var cmds := Fragments(seqNo, fd, body[offset..]);
      && cmds != []
      && cmds[0] == Cmd(FragmentHeader(n, seqNo, fd), body[offset..offset + n])
      && cmds[1..] == Fragments(seqNo, fd, body[offset + n..])
  {
    assert body[offset..][..n] == body[offset..offset + n];
    assert body[offset..][n..] == body[offset + n..];
  }

  lemma WireOne(c: Cmd)
    ensures Wire([c]) == EncodeCmd(c)
  {
  }

  /** A command of which the connection took only a part, with nothing behind it, is just not complete yet. */
  lemma CutIsPartial(cmds: seq<Cmd>, c: Cmd, n: nat)
    requires AllWellFormed(cmds) && c.WellFormed() && n < |EncodeCmd(c)|
    ensures Frame(Wire(cmds) + EncodeCmd(c)[..n]) == Framing(cmds, EncodeCmd(c)[..n], Partial)
  {
    hide Frame, EncodeCmd, FrontOf, Wire, Cmd.WellFormed;
    var part := EncodeCmd(c)[..n];
    FrameWire(cmds);
    FrameAppend(Wire(cmds), part);
    Regroup([], [], part);
    Regroup([], [], cmds);
    CutFrontIsPartial(c, n);
    StopIsAll(part);
  }

  lemma StopIsAll(s: seq<byte>)
    requires FrontOf(s) == Stop(Partial)
    ensures Frame(s) == Framing([], s, Partial)
  {
  }

  lemma CutFrontIsPartial(c: Cmd, n: nat)
    requires c.WellFormed() && n < |EncodeCmd(c)|
    ensures FrontOf(EncodeCmd(c)[..n]) == Stop(Partial)
  {
    hide EncodeHeader;
    var part := EncodeCmd(c)[..n];
    if n >= HEADER_LEN {
      assert part == EncodeHeader(c.header) + part[HEADER_LEN..];
      DecodeEncodeHeader(c.header, part[HEADER_LEN..]);
    }
  }

  lemma LowestByte(b0: byte, b1: byte, b2: byte, b3: byte)
    ensures 0 <= DecodeInt32(b0, b1, b2, b3) < 0x100 ==> DecodeInt32(b0, b1, b2, b3) == b0 as int
  {
  }

  lemma FirstKind(window: seq<byte>, d: Cmd)
    ensures Frame(window).cmds == [d] && 0 <= d.header.kind < 0x100 ==> window != [] && d.header.kind == window[0] as int
  {
    hide DecodeInt32;
    if Frame(window).cmds == [d] {
      assert Frame(window).cmds[0] == FrontOf(window).cmd;
      LowestByte(window[0], window[1], window[2], window[3]);
    }
  }

  /** Whatever is written behind a short write is framed right just if the short write left nothing on the connection. */
  lemma ShortWrite(c: Cmd, n: nat)
    requires c.WellFormed() && n < |EncodeCmd(c)|
    ensures (forall d: Cmd :: d.WellFormed() ==> Frame(EncodeCmd(c)[..n] + EncodeCmd(d)).cmds == [d]) <==> n == 0
  {
    hide EncodeCmd, Frame;
    if n == 0 {
      forall d: Cmd | d.WellFormed()
        ensures Frame(EncodeCmd(c)[..n] + EncodeCmd(d)).cmds == [d]
      {
        Regroup([], [], EncodeCmd(d));
        WireOne(d);
        FrameWire([d]);
      }
    } else {
      var kind := if EncodeCmd(c)[0] == 1 then COMMAND_PROXY_DISCONNECT else COMMAND_PROXY;
      var d := Cmd(Header(kind, 0, 0, 0, false), []);
      var window := EncodeCmd(c)[..n] + EncodeCmd(d);
      assert d.WellFormed() && window[0] == EncodeCmd(c)[0];
      FirstKind(window, d);
    }
  }

  lemma WireHeadOf(cmds: seq<Cmd>, n: nat)
    requires 0 < n <= |cmds|
    ensures Wire(cmds[..n]) == EncodeCmd(cmds[0]) + Wire(cmds[1..][..n - 1])
  {
    hide EncodeCmd;
    assert cmds[..n][1..] == cmds[1..][..n - 1];
  }

  lemma NoFragments(seqNo: int32, fd: int32, body: seq<byte>)
    ensures body == [] ==> Fragments(seqNo, fd, body) == []
  {
  }

  class ProxyAgent {
    /** How many bytes the connection takes of each write; it is lost behind the last one. */
    const takes: seq<nat>
    /** Request number of the next command the agent starts itself. */
    var sendSeq: int32
    var writes: nat
    /** The bytes on the connection so far. */
    var stream: seq<byte>

    constructor (takes: seq<nat>)
      ensures sendSeq == 0 && writes == 0 && stream == [] && this.takes == takes
    {
      this.takes, sendSeq, writes, stream := takes, 0, 0, [];
    }

    function Room(i: nat): nat {
      if i < |takes| then takes[i] else 0
    }

    /** How many of the commands go out whole from the given write on, up to the first that does not. */
    function Whole(cmds: seq<Cmd>, i: nat): (n: nat)
      ensures n <= |cmds|
    {
      if cmds == [] || Room(i) < |EncodeCmd(cmds[0])| then 0 else 1 + Whole(cmds[1..], i + 1)
    }

    /** What the connection takes of the commands from the given write on, up to the first short one. */
    function Taken(cmds: seq<Cmd>, i: nat): seq<byte> {
      if cmds == [] then [] else
      var data := EncodeCmd(cmds[0]);
      if Room(i) < |data| then data[..Room(i)] else data + Taken(cmds[1..], i + 1)
    }

    /** How many writes are made for the commands. */
    function Tries(cmds: seq<Cmd>, i: nat): nat {
      Whole(cmds, i) + if Whole(cmds, i) == |cmds| then 0 else 1
    }

    /** The first command that the connection has no room for. */
    lemma {:induction false} WholeStops(cmds: seq<Cmd>, i: nat)
      ensures var n := Whole(cmds, i);
        && (forall k :: 0 <= k < n ==> |EncodeCmd(cmds[k])| <= Room(i + k))
        && (n < |cmds| ==> Room(i + n) < |EncodeCmd(cmds[n])|)
      decreases |cmds|
    {
      hide EncodeCmd;
      if Whole(cmds, i) > 0 {
        WholeStops(cmds[1..], i + 1);
        assert forall k :: 0 < k < Whole(cmds, i) ==> cmds[k] == cmds[1..][k - 1] && Room(i + k) == Room(i + 1 + (k - 1));
      }
    }

    /** What goes out of the command that is not taken whole. */
    function Part(cmds: seq<Cmd>, i: nat): seq<byte> {
      var n := Whole(cmds, i);
      WholeStops(cmds, i);
      if n < |cmds| then EncodeCmd(cmds[n])[..Room(i + n)] else []
    }

    /** The commands in front of the first short write are taken whole, and then a part of the next. */
    lemma {:induction false} TakenIsWhole(cmds: seq<Cmd>, i: nat)
      ensures Taken(cmds, i) == Wire(cmds[..Whole(cmds, i)]) + Part(cmds, i)
      decreases |cmds|
    {
      hide EncodeCmd;
      var n := Whole(cmds, i);
      if n == 0 {
        Regroup([], [], Taken(cmds, i));
      } else {
        TakenIsWhole(cmds[1..], i + 1);
        var tail := cmds[1..][..n - 1];
        WireHeadOf(cmds, n);
        Regroup(EncodeCmd(cmds[0]), Wire(tail), Part(cmds[1..], i + 1));
      }
    }

    /** One write out of those for a list of commands. */
    lemma WriteStep(cmds: seq<Cmd>, i: nat, before: seq<byte>)
      requires cmds != []
      ensures var data := EncodeCmd(cmds[0]);
        if Room(i) < |data| then
          before + Taken(cmds, i) == before + data[..Room(i)] && Tries(cmds, i) == 1 && Whole(cmds, i) < |cmds|
        else
          && before + Taken(cmds, i) == (before + data) + Taken(cmds[1..], i + 1)
          && Tries(cmds, i) == 1 + Tries(cmds[1..], i + 1)
          && (Whole(cmds, i) == |cmds| <==> Whole(cmds[1..], i + 1) == |cmds[1..]|)
    {
      hide EncodeCmd;
      Regroup(before, EncodeCmd(cmds[0]), Taken(cmds[1..], i + 1));
    }

    lemma NoWrite(i: nat, before: seq<byte>)
      ensures before + Taken([], i) == before && Tries([], i) == 0 && Whole([], i) == 0
    {
    }

    /** One write: the connection takes the command, or the part of it that it has room for. */
    method SendCommand(cmd: Cmd) returns (sent: bool)
      modifies this`writes, this`stream
      ensures writes == old(writes) + 1
      ensures sent == (|EncodeCmd(cmd)| <= Room(old(writes)))
      ensures stream == old(stream) + if sent then EncodeCmd(cmd) else EncodeCmd(cmd)[..Room(old(writes))]
    {
      var data := EncodeCmd(cmd);
      var n := Min(Room(writes), |data|);
      stream, writes := stream + data[..n], writes + 1;
      sent := n == |data|;
    }

    /** Sends the fragments in order and stops at the first write that is short. */
    method SendProxyBuffer(seqNo: int32, fd: int32, body: seq<byte>) returns (sent: bool)
      modifies this`writes, this`stream
      ensures var cmds := Fragments(seqNo, fd, body);
        && sent == (Whole(cmds, old(writes)) == |cmds|)
        && writes == old(writes) + Tries(cmds, old(writes))
        && stream == old(stream) + Taken(cmds, old(writes))
    {
      hide Fragments, FragmentHeader, EncodeCmd, Whole, Taken, Tries;
      ghost var cmds := Fragments(seqNo, fd, body);
      ghost var rest := cmds;
      sent := true;
      var offset, last := 0, |body|;
      assert body[offset..] == body;
      while last > 0 && sent
        invariant 0 <= offset <= |body| && last == |body| - offset
        invariant sent ==> rest == Fragments(seqNo, fd, body[offset..])
        invariant sent ==> stream + Taken(rest, writes) == old(stream) + Taken(cmds, old(writes))
        invariant sent ==> writes + Tries(rest, writes) == old(writes) + Tries(cmds, old(writes))
        invariant sent ==> (Whole(rest, writes) == |rest| <==> Whole(cmds, old(writes)) == |cmds|)
        invariant !sent ==> stream == old(stream) + Taken(cmds, old(writes))
        invariant !sent ==> writes == old(writes) + Tries(cmds, old(writes)) && Whole(cmds, old(writes)) != |cmds|
        decreases last
      {
        var n := Min(last, MAX_FRAGMENT);
        var cmd := Cmd(FragmentHeader(n, seqNo, fd), body[offset..offset + n]);
        FragmentAt(seqNo, fd, body, offset, n);
        WriteStep(rest, writes, stream);
        offset, last := offset + n, last - n;
        sent := SendCommand(cmd);
        rest := rest[1..];
      }
      if sent {
        NoFragments(seqNo, fd, body[offset..]);
        NoWrite(writes, stream);
      }
    }

    method SendProxyDisconnect(fd: int32) returns (sent: bool)
      requires sendSeq < 0x7FFF_FFFF
      modifies this
      ensures sendSeq == old(sendSeq) + 1 && writes == old(writes) + 1
      ensures var data := EncodeCmd(DisconnectCmd(old(sendSeq), fd));
        && |data| == HEADER_LEN && DecodeHeader(data) == Header(COMMAND_PROXY_DISCONNECT, 0, old(sendSeq), fd, true)
        && sent == (|data| <= Room(old(writes)))
        && stream == old(stream) + if sent then data else data[..Room(old(writes))]
    {
      hide EncodeHeader, DecodeHeader;
      var cmd := DisconnectCmd(sendSeq, fd);
      DecodeEncodeHeader(cmd.header, []);
      sendSeq := sendSeq + 1;
      sent := SendCommand(cmd);
    }
  }
}
