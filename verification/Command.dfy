/**
 * The command format shared by the agent and the server: a packed 17-byte header
 * followed by the parameter bytes, and the unbounded specification of framing,
 * which says what a parser must find in a byte stream.
 */
module Command {
  import opened Bytes

  const MAX_PARAM_LEN: nat := 4096
  const MAX_BUFFER_LEN: nat := 8192
  const HEADER_LEN: nat := 17

  const COMMAND_PROXY: int32 := 1
  const COMMAND_PROXY_DISCONNECT: int32 := 2

  datatype Header = Header(kind: int32, len: int32, seqNo: int32, fd: int32, isNew: bool)

  datatype Cmd = Cmd(header: Header, param: seq<byte>) {
    /** What every command built by the agent meets. */
    predicate WellFormed() {
      && |param| < MAX_PARAM_LEN
      && header.len == |param|
    }
  }

  predicate AllWellFormed(cmds: seq<Cmd>) {
    forall i :: 0 <= i < |cmds| ==> cmds[i].WellFormed()
  }

  function EncodeHeader(h: Header): (bytes: seq<byte>)
    ensures |bytes| == HEADER_LEN
  {
    EncodeInt32(h.kind) + EncodeInt32(h.len) + EncodeInt32(h.seqNo) + EncodeInt32(h.fd) + [if h.isNew then 1 else 0]
  }

  /** The header at the front of a stream. Any non-zero last byte reads as true, as a C++ bool does. */
  function DecodeHeader(s: seq<byte>): Header
    requires HEADER_LEN <= |s|
  {
    Header(DecodeInt32(s[0], s[1], s[2], s[3]),
           DecodeInt32(s[4], s[5], s[6], s[7]),
           DecodeInt32(s[8], s[9], s[10], s[11]),
           DecodeInt32(s[12], s[13], s[14], s[15]),
           s[16] != 0)
  }

  lemma DecodeEncodeHeader(h: Header, tail: seq<byte>)
    ensures DecodeHeader(EncodeHeader(h) + tail) == h
  {
    DecodeEncodeInt32(h.kind);
    DecodeEncodeInt32(h.len);
    DecodeEncodeInt32(h.seqNo);
    DecodeEncodeInt32(h.fd);
    hide EncodeInt32, DecodeInt32;
    var s := EncodeHeader(h) + tail;
    assert s[0] == EncodeInt32(h.kind)[0] && s[4] == EncodeInt32(h.len)[0] && s[8] == EncodeInt32(h.seqNo)[0] && s[12] == EncodeInt32(h.fd)[0];
  }

  function EncodeCmd(c: Cmd): seq<byte> {
    EncodeHeader(c.header) + c.param
  }

  /** The bytes on the wire after writing the commands in order. */
  function Wire(cmds: seq<Cmd>): seq<byte> {
    if cmds == [] then [] else EncodeCmd(cmds[0]) + Wire(cmds[1..])
  }

  lemma {:induction false} WireAppend(left: seq<Cmd>, right: seq<Cmd>)
    ensures Wire(left + right) == Wire(left) + Wire(right)
  {
    if left == [] {
      assert left + right == right;
    } else {
      assert (left + right)[1..] == left[1..] + right;
      WireAppend(left[1..], right);
    }
  }

  /** Why framing stops: it needs more bytes, or it meets a length it cannot accept. */
  datatype Halt = Partial | Malformed | Oversize

  datatype Framing = Framing(cmds: seq<Cmd>, rest: seq<byte>, halt: Halt) {
    function Prepend(more: seq<Cmd>): Framing {
      this.(cmds := more + cmds)
    }
  }

  /** What stands at the front of a stream: a whole command of `size` bytes, or a reason to stop. */
  datatype Front = Stop(halt: Halt) | Take(cmd: Cmd, size: nat)

  /**
   * Oversize marks a length the receiver's header check lets through although its command
   * record cannot hold that many parameter bytes.
   */
  function FrontOf(s: seq<byte>): (f: Front)
    ensures f.Take? ==> HEADER_LEN <= f.size <= |s| && f.size < HEADER_LEN + MAX_PARAM_LEN
    ensures f == Stop(Partial) ==> |s| < HEADER_LEN + MAX_PARAM_LEN
  {
    if |s| < HEADER_LEN then Stop(Partial) else
    var h := DecodeHeader(s);
    if h.len < 0 || h.len > MAX_BUFFER_LEN then Stop(Malformed)
    else if h.len >= MAX_PARAM_LEN then Stop(Oversize)
    else if |s| - HEADER_LEN < h.len then Stop(Partial)
    else Take(Cmd(h, s[HEADER_LEN..HEADER_LEN + h.len]), HEADER_LEN + h.len)
  }

  /** More bytes behind it never change a front that is complete or already refused. */
  lemma FrontAppend(s: seq<byte>, t: seq<byte>)
    requires FrontOf(s) != Stop(Partial)
    ensures FrontOf(s + t) == FrontOf(s)
  {
    assert DecodeHeader(s + t) == DecodeHeader(s);
    if FrontOf(s).Take? {
      var n := FrontOf(s).size;
      assert (s + t)[HEADER_LEN..n] == s[HEADER_LEN..n];
    }
  }

  lemma FrontOfWire(c: Cmd, t: seq<byte>)
    requires c.WellFormed()
    ensures FrontOf(EncodeCmd(c) + t) == Take(c, HEADER_LEN + |c.param|)
  {
    var s := EncodeCmd(c) + t;
    assert s == EncodeHeader(c.header) + (c.param + t);
    DecodeEncodeHeader(c.header, c.param + t);
    assert s[HEADER_LEN..HEADER_LEN + |c.param|] == c.param;
  }

  /** The framing of an unbounded stream. */
  function Frame(s: seq<byte>): Framing
    decreases |s|
  {
    match FrontOf(s)
    case Stop(halt) => Framing([], s, halt)
    case Take(c, n) => Frame(s[n..]).Prepend([c])
  }

  /** An incomplete command is always shorter than the receive buffer. */
  lemma {:induction false} RestIsShort(s: seq<byte>)
    requires Frame(s).halt == Partial
    ensures FrontOf(Frame(s).rest) == Stop(Partial)
    ensures |Frame(s).rest| < HEADER_LEN + MAX_PARAM_LEN
    decreases |s|
  {
    if FrontOf(s).Take? {
      RestIsShort(s[FrontOf(s).size..]);
    }
  }

  /** Framing a stream in two pieces finds the same commands as framing it at once. */
  lemma {:induction false} FrameAppend(s: seq<byte>, t: seq<byte>)
    ensures Frame(s).halt == Partial ==> Frame(s + t) == Frame(Frame(s).rest + t).Prepend(Frame(s).cmds)
    ensures Frame(s).halt != Partial ==> Frame(s + t) == Frame(s).(rest := Frame(s).rest + t)
    decreases |s|
  {
    hide FrontOf;
    match FrontOf(s)
    case Stop(halt) =>
      if halt != Partial {
        FrontAppend(s, t);
      }
    case Take(c, n) =>
      FrontAppend(s, t);
      assert (s + t)[n..] == s[n..] + t;
      FrameAppend(s[n..], t);
      var f := Frame(s[n..]);
      assert [c] + (f.cmds + Frame(f.rest + t).cmds) == ([c] + f.cmds) + Frame(f.rest + t).cmds;
  }

  lemma WireHead(cmds: seq<Cmd>)
    requires cmds != []
    ensures Wire(cmds)[HEADER_LEN + |cmds[0].param|..] == Wire(cmds[1..]) && Wire(cmds) == EncodeCmd(cmds[0]) + Wire(cmds[1..])
  {
  }

  /** Parsing what the agent printed gives back exactly what it printed. */
  lemma {:induction false} FrameWire(cmds: seq<Cmd>)
    requires AllWellFormed(cmds)
    ensures Frame(Wire(cmds)) == Framing(cmds, [], Partial)
  {
    hide EncodeCmd, Cmd.WellFormed;
    if cmds != [] {
      WireHead(cmds);
      FrontOfWire(cmds[0], Wire(cmds[1..]));
      FrameWire(cmds[1..]);
      hide FrontOf, Wire;
    }
  }

  /** Any beginning of a printed stream frames to a beginning of the commands, without an error. */
  lemma FramePrefix(cmds: seq<Cmd>, p: seq<byte>)
    requires AllWellFormed(cmds)
    requires p <= Wire(cmds)
    ensures Frame(p).halt == Partial
    ensures Frame(p).cmds <= cmds
  {
    var q := Wire(cmds)[|p|..];
    assert p + q == Wire(cmds);
    FrameWire(cmds);
    FrameAppend(p, q);
  }
}
