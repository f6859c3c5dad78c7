/**
 * Putting packets back in sequence. Whatever the order in which handler threads hand over the
 * packets of one connection, the receiver delivers the framing of the packets joined in the
 * order of their numbers.
 */
module Reorder {
  import opened Bytes
  import opened Collections
  import opened Command
  import opened Receiver

  /** The framing of the first `n` packets, joined. */
  function Joined(packets: seq<seq<byte>>, n: nat): Framing
    requires n <= |packets|
  {
    Frame(Concat(packets[..n]))
  }

  /** No free message was left for a packet that came too early. */
  ghost predicate RanDry(st: State, packets: seq<seq<byte>>, waiting: set<int>) {
    && st.free == 0 && !st.oversize
    && (exists d :: st.expected < d < |packets| && d !in st.cache && d !in waiting)
    && Joined(packets, st.expected).halt == Partial
    && st.delivered == Joined(packets, st.expected).cmds
  }

  /** The next packet in sequence does not continue the stream correctly. */
  ghost predicate MetBadPacket(st: State, packets: seq<seq<byte>>)
    requires st.expected <= |packets|
  {
    && st.expected < |packets|
    && Joined(packets, st.expected + 1).halt != Partial
    && st.oversize == (Joined(packets, st.expected + 1).halt == Oversize)
    && st.delivered == Joined(packets, st.expected + 1).cmds
  }

  /** Exactly the packets below the expected number have been parsed, in order. */
  ghost predicate UpToDate(st: State, packets: seq<seq<byte>>)
    requires st.expected <= |packets|
  {
    && !st.oversize
    && Joined(packets, st.expected) == Framing(st.delivered, st.residue, Partial)
  }

  /** Every packet from the expected number on is still waiting or kept in the cache, and none is both. */
  ghost predicate Accounted(st: State, packets: seq<seq<byte>>, waiting: set<int>) {
    && (forall k :: k in st.cache ==> st.expected <= k < |packets| && k !in waiting && st.cache[k] == packets[k])
    && (forall k :: k in waiting ==> st.expected <= k < |packets|)
    && (forall k :: st.expected <= k < |packets| ==> k in waiting || k in st.cache)
  }

  /** What relates the receiver to the numbered packets while `waiting` are not handled yet. */
  ghost predicate Tracks(st: State, packets: seq<seq<byte>>, waiting: set<int>, capacity: nat) {
    && st.expected <= |packets|
    && st.free + |st.cache| == capacity
    && (forall k :: k in st.cache ==> st.expected < k < |packets|)
    && if st.failed then
         RanDry(st, packets, waiting) || MetBadPacket(st, packets)
       else
         UpToDate(st, packets) && Accounted(st, packets, waiting)
  }

  lemma JoinNext(packets: seq<seq<byte>>, n: nat)
    requires n < |packets|
    ensures Concat(packets[..n + 1]) == Concat(packets[..n]) + packets[n]
    ensures var f := Joined(packets, n);
      if f.halt == Partial then Joined(packets, n + 1) == Frame(f.rest + packets[n]).Prepend(f.cmds)
      else Joined(packets, n + 1) == f.(rest := f.rest + packets[n])
  {
    hide FrontOf, Frame;
    assert packets[..n + 1][..n] == packets[..n];
    FrameAppend(Concat(packets[..n]), packets[n]);
  }

  /** Once the joined packets are refused, later packets add no command. */
  lemma {:induction false} RefusedForGood(packets: seq<seq<byte>>, m: nat, n: nat)
    requires m <= n <= |packets| && Joined(packets, m).halt != Partial
    ensures Joined(packets, n).halt == Joined(packets, m).halt
    ensures Joined(packets, n).cmds == Joined(packets, m).cmds
    decreases n - m
  {
    if m < n {
      JoinNext(packets, m);
      RefusedForGood(packets, m + 1, n);
    }
  }

  /** Parsing the packet that is next in sequence, wherever it comes from. */
  lemma AcceptNext(st: State, packets: seq<seq<byte>>)
    requires st.expected < |packets| && !st.failed && UpToDate(st, packets)
    ensures var next := Accept(st, packets[st.expected]);
      && next.cache == st.cache && next.free == st.free
      && if next.failed then next.expected == st.expected && MetBadPacket(next, packets)
         else next.expected == st.expected + 1 && UpToDate(next, packets)
  {
    hide FrontOf, Frame;
    JoinNext(packets, st.expected);
  }

  lemma {:induction false} DrainTracks(st: State, packets: seq<seq<byte>>, waiting: set<int>, capacity: nat)
    requires st.expected <= |packets| && !st.failed
    requires UpToDate(st, packets) && Accounted(st, packets, waiting)
    requires st.free + |st.cache| == capacity
    ensures Tracks(Drain(st), packets, waiting, capacity)
    ensures Drain(st).failed ==> MetBadPacket(Drain(st), packets)
    decreases |st.cache|
  {
    hide FrontOf, Frame, Joined;
    if st.expected in st.cache {
      AcceptNext(st, packets);
      var next := Turn(st);
      assert UpToDate(Accept(st, packets[st.expected]), packets) ==> UpToDate(next, packets);
      if !next.failed {
        DrainTracks(next, packets, waiting, capacity);
      }
    }
  }

  /** Handing over any waiting packet keeps the relation. */
  lemma ReceiveTracks(st: State, packets: seq<seq<byte>>, waiting: set<int>, i: int, capacity: nat)
    requires Tracks(st, packets, waiting, capacity)
    requires i in waiting && 0 <= i < |packets|
    ensures Tracks(Receive(st, i, packets[i]), packets, waiting - {i}, capacity)
    ensures var next := Receive(st, i, packets[i]);
      !st.failed && next.failed ==> if i == st.expected then MetBadPacket(next, packets) else st.free == 0
  {
    hide FrontOf, Frame, Joined;
    if st.failed {
    } else if i != st.expected {
    } else {
      AcceptNext(st, packets);
      var next := Accept(st, packets[i]);
      if !next.failed {
        DrainTracks(next, packets, waiting - {i}, capacity);
      }
    }
  }

  /** When the pool never ran dry and nothing is left to handle, everything parsable has been delivered. */
  lemma AllHandled(st: State, packets: seq<seq<byte>>, capacity: nat)
    requires Tracks(st, packets, {}, capacity)
    requires !(st.failed && RanDry(st, packets, {}))
    ensures var all := Frame(Concat(packets));
      && st.delivered == all.cmds
      && (st.failed <==> all.halt != Partial)
      && (!st.failed ==> st.expected == |packets| && st.cache == map[] && st.free == capacity && st.residue == all.rest)
  {
    hide FrontOf, Frame, Joined;
    JoinedAll(packets);
    if st.failed {
      RefusedForGood(packets, st.expected + 1, |packets|);
    } else {
      assert st.expected == |packets| || st.expected in st.cache;
      assert forall k :: k !in st.cache;
      assert st.cache == map[];
    }
  }

  lemma JoinedAll(packets: seq<seq<byte>>)
    ensures Joined(packets, |packets|) == Frame(Concat(packets))
  {
    assert packets[..|packets|] == packets;
  }

  lemma {:induction false} BoundedSet(s: set<int>, lo: int, hi: int)
    requires forall k :: k in s ==> lo <= k < hi
    ensures |s| <= if lo <= hi then hi - lo else 0
    decreases hi - lo
  {
    if lo < hi {
      BoundedSet(s - {hi - 1}, lo, hi - 1);
      assert |s| <= |s - {hi - 1}| + 1;
    } else {
      assert s == {};
    }
  }

  /** The pool runs dry only when more packets than it can hold are ahead of the expected one. */
  lemma DryPoolIsTooSmall(st: State, packets: seq<seq<byte>>, waiting: set<int>, capacity: nat)
    requires Tracks(st, packets, waiting, capacity) && RanDry(st, packets, waiting)
    ensures st.expected + capacity + 2 <= |packets|
  {
    var d :| st.expected < d < |packets| && d !in st.cache && d !in waiting;
    BoundedSet(st.cache.Keys + {d}, st.expected + 1, |packets|);
    assert |st.cache.Keys + {d}| == |st.cache| + 1;
  }

  /** Hands over the packets in the given order of their numbers. */
  function ReceiveAll(st: State, packets: seq<seq<byte>>, order: seq<nat>): State
    requires forall i :: 0 <= i < |order| ==> order[i] < |packets|
    decreases |order|
  {
    if order == [] then st else ReceiveAll(Receive(st, order[0], packets[order[0]]), packets, order[1..])
  }

  lemma {:induction false} ReceiveAllTracks(st: State, packets: seq<seq<byte>>, waiting: set<int>, order: seq<nat>, capacity: nat)
    requires Tracks(st, packets, waiting, capacity)
    requires NoRepeats(order) && forall i :: 0 <= i < |order| ==> order[i] < |packets| && order[i] in waiting
    ensures Tracks(ReceiveAll(st, packets, order), packets, waiting - Members(order), capacity)
    decreases |order|
  {
    hide Tracks, Receive;
    if order == [] {
      assert waiting - Members(order) == waiting;
    } else {
      ReceiveTracks(st, packets, waiting, order[0], capacity);
      ReceiveAllTracks(Receive(st, order[0], packets[order[0]]), packets, waiting - {order[0]}, order[1..], capacity);
      assert (waiting - {order[0]}) - Members(order[1..]) == waiting - Members(order);
    }
  }

  /** The numbers of the first n packets. */
  ghost function Below(n: nat): (s: set<int>)
    ensures forall k :: k in s <==> 0 <= k < n
  {
    if n == 0 then {} else Below(n - 1) + {n - 1}
  }

  lemma FreshTracks(packets: seq<seq<byte>>, capacity: nat)
    ensures Tracks(Fresh(capacity), packets, Below(|packets|), capacity)
  {
    assert packets[..0] == [];
  }

  /**
   * Every order of arrival gives the same result: with room for the packets that can be early,
   * the receiver delivers the framing of the packets joined by number, and fails exactly when
   * that framing does.
   */
  lemma ArrivalOrderIrrelevant(packets: seq<seq<byte>>, order: seq<nat>, capacity: nat)
    requires NoRepeats(order) && (forall i :: 0 <= i < |order| ==> order[i] < |packets|)
    requires forall k :: 0 <= k < |packets| ==> k in order
    requires |packets| <= capacity + 1
    ensures var st, all := ReceiveAll(Fresh(capacity), packets, order), Frame(Concat(packets));
      && st.delivered == all.cmds
      && (st.failed <==> all.halt != Partial)
      && (!st.failed ==> st.expected == |packets| && st.cache == map[] && st.residue == all.rest)
  {
    hide FrontOf, Frame, RanDry;
    var waiting := Below(|packets|);
    var st := ReceiveAll(Fresh(capacity), packets, order);
    FreshTracks(packets, capacity);
    ReceiveAllTracks(Fresh(capacity), packets, waiting, order, capacity);
    assert waiting - Members(order) == {};
    if RanDry(st, packets, {}) {
      DryPoolIsTooSmall(st, packets, {}, capacity);
    }
    AllHandled(st, packets, capacity);
  }
}
