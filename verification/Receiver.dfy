/**
 * The receiving end of the command channel: packets that several threads hand over in any
 * order are put back in sequence through a bounded cache, and commands are cut out of them
 * in a fixed buffer.
 */
module Receiver {
  import opened Bytes
  import opened Command
  import opened Messages
  import opened Collections

  /** A receiver on values: the specification of the class below. */
  datatype State = State(
    residue: seq<byte>,
    expected: nat,
    cache: map<int, seq<byte>>,
    free: nat,
    failed: bool,
    oversize: bool,
    delivered: seq<Cmd>
  )

  function Fresh(free: nat): State {
    State([], 0, map[], free, false, false, [])
  }

  /** One packet in sequence. */
  function Absorb(st: State, data: seq<byte>): State {
    var f := Frame(st.residue + data);
    st.(residue := if f.halt == Partial then f.rest else [],
        failed := f.halt != Partial,
        oversize := st.oversize || f.halt == Oversize,
        delivered := st.delivered + f.cmds)
  }

  /** One packet, and the expected number moves on unless parsing fails. */
  function Accept(st: State, data: seq<byte>): (next: State)
    ensures !next.failed ==> next.oversize == st.oversize
  {
    var parsed := Absorb(st, data);
    if parsed.failed then parsed else parsed.(expected := st.expected + 1)
  }

  /** The next packet in sequence is parsed out of the cache, and its message goes back to the idle list. */
  function Turn(st: State): State
    requires st.expected in st.cache
  {
    Accept(st, st.cache[st.expected]).(cache := st.cache - {st.expected}, free := st.free + 1)
  }

  /** Parses the cached packets that have become next in sequence. */
  function Drain(st: State): State
    decreases |st.cache|
  {
    if st.expected !in st.cache then st else
    var next := Turn(st);
    if next.failed then next else Drain(next)
  }

  lemma DrainStep(st: State)
    ensures Drain(st) ==
      if st.expected !in st.cache then st
      else if Turn(st).failed then Turn(st)
      else Drain(Turn(st))
    ensures st.expected in st.cache && !Turn(st).failed ==> Turn(st).oversize == st.oversize
    ensures st.expected in st.cache ==> |Turn(st).cache| < |st.cache|
  {
  }

  /** A packet that came too early is kept; the insertion does not replace an entry. */
  function Keep(st: State, seqNo: int, data: seq<byte>): State
    requires st.free > 0
  {
    st.(free := st.free - 1, cache := if seqNo in st.cache then st.cache else st.cache[seqNo := data])
  }

  /** One packet handed over by any thread. */
  function Receive(st: State, seqNo: int, data: seq<byte>): State {
    if st.failed then st
    else if seqNo != st.expected then
      if st.free == 0 then st.(residue := [], failed := true)
      else Keep(st, seqNo, data)
    else
      var next := Accept(st, data);
      if next.failed then next else Drain(next)
  }

  lemma PrependTwice(f: Framing, first: seq<Cmd>, second: seq<Cmd>)
    ensures f.Prepend(second).Prepend(first) == f.Prepend(first + second)
  {
    assert first + (second + f.cmds) == (first + second) + f.cmds;
  }

  lemma PartialIsShort(window: seq<byte>)
    requires FrontOf(window) == Stop(Partial)
    ensures |window| < MAX_BUFFER_LEN
  {
  }

  lemma NothingWhole(window: seq<byte>)
    requires FrontOf(window).Stop?
    ensures Frame(window) == Framing([], window, FrontOf(window).halt)
  {
  }

  lemma CutFront(window: seq<byte>, done: seq<Cmd>)
    requires FrontOf(window).Take?
    ensures var Take(c, n) := FrontOf(window);
      Frame(window).Prepend(done) == Frame(window[n..]).Prepend(done + [c])
  {
    var Take(c, n) := FrontOf(window);
    PrependTwice(Frame(window[n..]), done, [c]);
  }

  /** Framing what is buffered with one more piece of a packet, before the rest of the packet is seen. */
  lemma NextPiece(all: Framing, done: seq<Cmd>, window: seq<byte>, piece: seq<byte>, tail: seq<byte>)
    requires all == Frame(window + (piece + tail)).Prepend(done)
    ensures var f := Frame(window + piece);
      if f.halt == Partial then
        FrontOf(f.rest) == Stop(Partial) && all == Frame(f.rest + tail).Prepend(done + f.cmds)
      else
        all.halt == f.halt && all.cmds == done + f.cmds
  {
    hide FrontOf;
    var f := Frame(window + piece);
    assert window + (piece + tail) == (window + piece) + tail;
    FrameAppend(window + piece, tail);
    if f.halt == Partial {
      RestIsShort(window + piece);
      PrependTwice(Frame(f.rest + tail), done, f.cmds);
    }
  }

  /** The fixed command buffer of a client, with the commands passed to the callback so far. */
  class Framer {
    const buffer: array<byte>
    var len: nat
    var delivered: seq<Cmd>

    constructor ()
      ensures Valid() && fresh(buffer) && Residue() == [] && delivered == []
    {
      buffer := new byte[MAX_BUFFER_LEN](_ => 0);
      len, delivered := 0, [];
    }

    predicate Valid()
      reads this
    {
      buffer.Length == MAX_BUFFER_LEN && len <= MAX_BUFFER_LEN
    }

    /** The bytes received that do not make up a complete command yet. */
    function Residue(): seq<byte>
      requires Valid()
      reads this, buffer
    {
      buffer[..len]
    }

    /** Copies a piece of a packet behind the bytes already buffered. */
    method Fill(piece: seq<byte>)
      requires Valid() && len + |piece| <= MAX_BUFFER_LEN
      modifies this`len, buffer
      ensures Valid() && len == old(len) + |piece|
      ensures Residue() == old(Residue()) + piece
    {
      forall i | 0 <= i < |piece| {
        buffer[len + i] := piece[i];
      }
      len := len + |piece|;
    }

    /** Moves the bytes behind a command of `n` bytes to the start of the buffer. */
    method Shift(n: nat)
      requires Valid() && n <= len
      modifies this`len, buffer
      ensures Valid() && len == old(len) - n
      ensures Residue() == old(Residue())[n..]
    {
      len := len - n;
      forall i | 0 <= i < len {
        buffer[i] := buffer[n + i];
      }
    }

    /** The inner loop: cuts complete commands off the front of the buffer until none is left. */
    method CutCommands() returns (ret: int)
      requires Valid()
      requires Frame(Residue()).halt != Oversize
      modifies this`len, this`delivered, buffer
      ensures Valid()
      ensures var f := Frame(old(Residue()));
        && delivered == old(delivered) + f.cmds
        && ret == (if f.halt == Malformed then -1 else if f.cmds == [] then 0 else 1)
        && Residue() == f.rest
    {
      hide Frame;
      ret := 0;
      ghost var all := Frame(Residue());
      ghost var done: seq<Cmd> := [];
      assert all.Prepend(done) == all;
      while len >= HEADER_LEN
        invariant Valid()
        invariant delivered == old(delivered) + done
        invariant all == Frame(Residue()).Prepend(done)
        invariant ret == if done == [] then 0 else 1
        decreases len
      {
        var window := Residue();
        var h := DecodeHeader(window);
        if h.len > MAX_BUFFER_LEN || h.len < 0 {
          ret := -1;
          NothingWhole(window);
          break;
        }
        if len - HEADER_LEN >= h.len {
          var cmd := Cmd(h, window[HEADER_LEN..HEADER_LEN + h.len]);
          delivered := delivered + [cmd];
          if FrontOf(window).Stop? {
            NothingWhole(window);
          }
          CutFront(window, done);
          Shift(HEADER_LEN + h.len);
          done := done + [cmd];
          ret := 1;
        } else {
          break;
        }
      }
      NothingWhole(Residue());
    }

    /** Cuts every complete command out of what is buffered followed by this packet. */
    method Parse(data: seq<byte>) returns (ret: int)
      requires Valid() && FrontOf(Residue()) == Stop(Partial)
      requires Frame(Residue() + data).halt != Oversize
      modifies this, buffer
      ensures Valid()
      ensures var f := Frame(old(Residue()) + data);
        && delivered == old(delivered) + f.cmds
        && ret == (if f.halt == Malformed then -1 else if f.cmds == [] then 0 else 1)
        && (ret != -1 ==> f.halt == Partial && Residue() == f.rest && FrontOf(Residue()) == Stop(Partial))
    {
      hide FrontOf, Frame;
      ghost var all := Frame(Residue() + data);
      ghost var done: seq<Cmd> := [];
      ret := 0;
      var last, taken := |data|, 0;
      assert data[taken..] == data;
      assert all.Prepend(done) == all;
      while ret != -1 && last > 0
        invariant 0 <= taken <= |data| && last == |data| - taken
        invariant Valid()
        invariant delivered == old(delivered) + done
        invariant ret != -1 ==> ret == if done == [] then 0 else 1
        invariant ret != -1 ==> FrontOf(Residue()) == Stop(Partial)
        invariant ret != -1 ==> all == Frame(Residue() + data[taken..]).Prepend(done)
        invariant ret == -1 ==> all.halt == Malformed && all.cmds == done
        decreases last
      {
        PartialIsShort(Residue());
        var n := if last < MAX_BUFFER_LEN - len then last else MAX_BUFFER_LEN - len;
        ghost var window, piece, tail := Residue(), data[taken..taken + n], data[taken + n..];
        assert data[taken..] == piece + tail;
        NextPiece(all, done, window, piece, tail);
        Fill(data[taken..taken + n]);
        last, taken := last - n, taken + n;
        var cut := CutCommands();
        done := done + Frame(window + piece).cmds;
        if cut != 0 {
          ret := cut;
        }
      }
      if ret != -1 {
        assert Residue() + data[taken..] == Residue();
        NothingWhole(Residue());
      }
    }
  }

  lemma MembersOfTail(items: seq<Message>)
    requires items != []
    ensures Members(items) == Members(items[1..]) + {items[0]}
    ensures NoRepeats(items) ==> items[0] !in Members(items[1..])
  {
  }

  /** The packets that came too early, in messages taken from the idle list. */
  class PacketCache {
    const idle: MessageList
    var entries: map<int, Message>
    /** What the messages hold. */
    ghost var held: map<int, seq<byte>>

    constructor (idle: MessageList)
      ensures this.idle == idle && entries == map[] && held == map[]
    {
      this.idle, entries, held := idle, map[], map[];
    }

    ghost predicate Valid()
      reads this, idle, entries.Values
    {
      && idle.Valid()
      && NoRepeats(idle.items)
      && (forall i, k :: 0 <= i < |idle.items| && k in entries ==> idle.items[i] != entries[k])
      && (forall j, k :: j in entries && k in entries && j != k ==> entries[j] != entries[k])
      && held.Keys == entries.Keys
      && (forall k :: k in entries ==> entries[k].data == held[k])
    }

    /** The pooled messages the cache and the idle list hold between them. */
    ghost function Owned(): set<Message>
      reads this, idle
    {
      Members(idle.items) + entries.Values
    }

    /** No cached message is idle. */
    lemma CachedAreNotIdle()
      requires Valid()
      ensures Owned() - entries.Values == Members(idle.items)
    {
      forall m | m in Members(idle.items)
        ensures m !in entries.Values
      {
        var i :| 0 <= i < |idle.items| && idle.items[i] == m;
        assert forall k :: k in entries ==> entries[k] != idle.items[i];
      }
    }

    predicate Find(seqNo: int)
      requires Valid()
      reads this, idle, entries.Values
      ensures Find(seqNo) <==> seqNo in held
    {
      seqNo in entries
    }

    /** Keeps a copy of a packet. The insertion does not replace an entry. */
    method Keep(m: Message) returns (kept: bool)
      requires Valid() && m !in Owned()
      modifies this, idle, idle.items
      ensures Valid()
      ensures kept == (|old(idle.items)| > 0)
      ensures |idle.items| == |old(idle.items)| - (if kept then 1 else 0)
      ensures held == if kept && m.seqNo !in old(held) then old(held)[m.seqNo := m.data] else old(held)
      ensures Owned() == old(Owned()) - Dropped(old(idle.items), m.seqNo in old(held))
    {
      var mc := idle.PopFront();
      if mc == null {
        return false;
      }
      mc.data := m.data;
      ghost var before := entries;
      assert forall k :: k in before ==> before[k] != mc && before[k].data == old(before[k].data);
      if m.seqNo !in entries {
        entries, held := entries[m.seqNo := mc], held[m.seqNo := m.data];
        ValuesAfterInsert(before, m.seqNo, mc);
      }
      MembersOfTail(old(idle.items));
      return true;
    }

    /** Returns the message of a parsed packet to the idle list. */
    method Release(seqNo: int)
      requires Valid() && seqNo in entries
      modifies this, idle
      ensures Valid()
      ensures |idle.items| == |old(idle.items)| + 1
      ensures held == old(held) - {seqNo}
      ensures Owned() == old(Owned())
    {
      var mc := entries[seqNo];
      assert forall j :: j in entries && j != seqNo ==> entries[j] != entries[seqNo];
      ValuesAfterRemove(entries, seqNo);
      idle.PushBack(mc);
      entries, held := entries - {seqNo}, held - {seqNo};
    }
  }

  /** A map insertion onto an occupied packet number leaves the popped message in no list. */
  function Dropped(items: seq<Message>, occupied: bool): set<Message> {
    if occupied && items != [] then {items[0]} else {}
  }

  class Client {
    const framer: Framer
    const cache: PacketCache
    var expected: nat
    var error: bool

    constructor (idle: MessageList)
      requires idle.Valid() && NoRepeats(idle.items)
      ensures Valid() && fresh(framer) && fresh(framer.buffer) && fresh(cache) && cache.idle == idle && cache.entries == map[]
      ensures View() == Fresh(|idle.items|)
    {
      framer := new Framer();
      cache := new PacketCache(idle);
      expected, error := 0, false;
    }

    ghost predicate Valid()
      reads this, framer, framer.buffer, cache, cache.idle, cache.entries.Values
    {
      && cache.Valid()
      && framer.Valid()
      && (!error ==> FrontOf(framer.Residue()) == Stop(Partial))
    }

    ghost function View(): State
      requires framer.Valid()
      reads this, framer, framer.buffer, cache, cache.idle
    {
      ViewIf(error)
    }

    /** The abstract state, with the error flag that parsing is about to set. */
    ghost function ViewIf(failed: bool): State
      requires framer.Valid()
      reads this, framer, framer.buffer, cache, cache.idle
    {
      State(if failed then [] else framer.Residue(), expected, cache.held, |cache.idle.items|, failed, false, framer.delivered)
    }

    /** Parses one packet in sequence. */
    method ParseDataNoCache(data: seq<byte>) returns (ret: int)
      requires Valid() && !error
      requires !Accept(View(), data).oversize
      modifies framer, framer.buffer
      ensures cache.Valid() && framer.Valid()
      ensures ret != -1 ==> Valid()
      ensures ViewIf(ret == -1) == Absorb(old(View()), data)
      ensures cache.Owned() == old(cache.Owned())
    {
      hide Frame, FrontOf, PacketCache.Valid;
      ret := framer.Parse(data);
    }

    /** Parses the next packet in sequence out of the cache and returns its message to the idle list. */
    method ParseCached() returns (ret: int)
      requires Valid() && !error && expected in cache.held
      requires !Turn(View()).oversize
      modifies this`expected, framer, framer.buffer, cache, cache.idle
      ensures cache.Valid() && framer.Valid()
      ensures ret != -1 ==> Valid()
      ensures ViewIf(ret == -1) == Turn(old(View()))
      ensures cache.Owned() == old(cache.Owned())
    {
      hide Frame, FrontOf;
      var mc := cache.entries[expected];
      ret := ParseDataNoCache(mc.data);
      cache.Release(expected);
      if ret != -1 {
        expected := expected + 1;
      }
    }

    /** The inner loop of ParseData: parses the cached packets that have become next in sequence. */
    method DrainCache(start: int) returns (ret: int)
      requires Valid() && !error && start != -1
      requires !Drain(View()).oversize
      modifies this`expected, framer, framer.buffer, cache, cache.idle
      ensures cache.Valid() && framer.Valid()
      ensures ret != -1 ==> Valid()
      ensures ViewIf(ret == -1) == Drain(old(View()))
      ensures cache.Owned() == old(cache.Owned())
    {
      hide Frame, FrontOf, Absorb, Turn, Drain, PacketCache.Valid;
      ret := start;
      while cache.Find(expected)
        invariant Valid() && ret != -1
        invariant cache.Owned() == old(cache.Owned())
        invariant Drain(View()) == Drain(old(View()))
        decreases |View().cache|
      {
        DrainStep(View());
        ret := ParseCached();
        if ret == -1 {
          return;
        }
      }
      DrainStep(View());
    }

    /** Parses the packet that is next in sequence, and what the cache holds behind it. */
    method ParseNext(data: seq<byte>) returns (ret: int)
      requires Valid() && !error
      requires !Accept(View(), data).oversize
      requires !Accept(View(), data).failed ==> !Drain(Accept(View(), data)).oversize
      modifies this`expected, framer, framer.buffer, cache, cache.idle
      ensures cache.Valid() && framer.Valid()
      ensures ret != -1 ==> Valid()
      ensures ViewIf(ret == -1) == var next := Accept(old(View()), data); if next.failed then next else Drain(next)
      ensures cache.Owned() == old(cache.Owned())
    {
      hide Frame, FrontOf, Absorb, Drain, PacketCache.Valid;
      ret := ParseDataNoCache(data);
      if ret != -1 {
        expected := expected + 1;
        ret := DrainCache(ret);
      }
    }

    /**
     * Handles one packet on any thread: parses it and what the cache holds behind it, or keeps it
     * for later. After a failure every packet is refused and nothing more is delivered.
     */
    method ParseData(m: Message) returns (ret: int)
      requires Valid() && m !in cache.Owned()
      requires !Receive(View(), m.seqNo, m.data).oversize
      modifies this`expected, this`error, framer, framer.buffer, cache, cache.idle, cache.idle.items
      ensures Valid()
      ensures View() == Receive(old(View()), m.seqNo, old(m.data))
      ensures ret == -1 <==> error
      ensures cache.Owned() == old(cache.Owned())
        - Dropped(if old(error) then [] else old(cache.idle.items), m.seqNo in old(cache.held) && m.seqNo != old(expected))
    {
      hide Frame, FrontOf, Absorb, Accept, Drain, PacketCache.Valid;
      ret := 0;
      if error {
        ret := -1;
      }
      if ret != -1 {
        if expected != m.seqNo {
          var kept := cache.Keep(m);
          if !kept {
            ret := -1;
          }
        } else {
          ret := 1;
        }
        if ret == 1 {
          ret := ParseNext(m.data);
        }
      }
      if ret == -1 {
        error := true;
      }
    }
  }

  /**
   * An agent is closed and the next one accepted, on the same list of idle messages. The messages
   * that the closed one had in its cache, and no others, are lost to the pool.
   */
  method Succeed(closed: Client) returns (next: Client)
    requires closed.Valid()
    ensures fresh(next) && next.Valid() && next.cache.idle == closed.cache.idle
    ensures next.View() == Fresh(closed.View().free)
    ensures next.cache.Owned() == closed.cache.Owned() - closed.cache.entries.Values
  {
    hide FrontOf;
    next := new Client(closed.cache.idle);
    closed.cache.CachedAreNotIdle();
  }
}
