/**
 * The 4-ary timer heap. Entries cache the expiry time of their watcher, and every watcher holds
 * the index of its entry. The first three array slots are never used, which makes the children
 * of slot k the four slots from 4 * (k - 3) + 4 on.
 */
module TimerHeap {
  import opened Watchers

  const DHEAP: nat := 4
  const HEAP0: nat := DHEAP - 1

  datatype Entry = Entry(at: real, w: Watcher)

  /** The division rounds toward zero, so the root is its own parent. */
  function Parent(k: nat): (p: nat)
    requires k >= HEAP0
    ensures HEAP0 <= p <= k
    ensures p == k <==> k == HEAP0
    ensures k > HEAP0 ==> FirstChild(p) <= k < FirstChild(p) + DHEAP
  {
    if k == HEAP0 then HEAP0 else (k - HEAP0 - 1) / DHEAP + HEAP0
  }

  function FirstChild(k: nat): nat
    requires k >= HEAP0
  {
    DHEAP * (k - HEAP0) + HEAP0 + 1
  }

  lemma ParentOfChild(k: nat, c: nat)
    requires k >= HEAP0 && FirstChild(k) <= c < FirstChild(k) + DHEAP
    ensures Parent(c) == k
  {
  }

  /** The heap occupies the slots [HEAP0, end). */
  predicate InHeap(i: int, end: nat) {
    HEAP0 <= i < end
  }

  ghost predicate OrderedAt(s: seq<Entry>, i: int)
    requires HEAP0 <= i < |s|
  {
    s[Parent(i)].at <= s[i].at
  }

  /** No entry expires before its parent. */
  ghost predicate Ordered(s: seq<Entry>, end: nat)
    requires end <= |s|
  {
    forall i :: InHeap(i, end) ==> OrderedAt(s, i)
  }

  /** Heap order everywhere but between slot k and its parent. */
  ghost predicate OrderedBut(s: seq<Entry>, end: nat, k: nat)
    requires end <= |s|
  {
    forall i :: InHeap(i, end) && i != k ==> OrderedAt(s, i)
  }

  /** Heap order everywhere but between slot k and its children. */
  ghost predicate OrderedAbove(s: seq<Entry>, end: nat, k: nat)
    requires end <= |s|
  {
    forall i :: InHeap(i, end) && (Parent(i) != k || i == k) ==> OrderedAt(s, i)
  }

  /** Leaving slot k out keeps heap order between its parent and its children. */
  ghost predicate Bridged(s: seq<Entry>, end: nat, k: nat)
    requires HEAP0 <= k < end <= |s|
  {
    k > HEAP0 ==> forall c :: InHeap(c, end) && Parent(c) == k ==> s[Parent(k)].at <= s[c].at
  }

  /** The entries in the heap. */
  function Contents(s: seq<Entry>, end: nat): multiset<Entry>
    requires HEAP0 <= end <= |s|
  {
    multiset(s[HEAP0..end])
  }

  ghost function WatchersIn(m: multiset<Entry>): set<Watcher> {
    set e | e in m :: e.w
  }

  lemma WatchersAfterAdd(m: multiset<Entry>, e: Entry)
    ensures WatchersIn(m + multiset{e}) == WatchersIn(m) + {e.w}
  {
    var n := m + multiset{e};
    forall w | w in WatchersIn(m) + {e.w}
      ensures w in WatchersIn(n)
    {
      if w == e.w {
        assert e in n;
      } else {
        var d :| d in m && d.w == w;
        assert d in n;
      }
    }
  }

  /** The watchers in the heap. */
  ghost function WatchersOf(heap: array<Entry>, end: nat): set<Watcher>
    requires HEAP0 <= end <= heap.Length
    reads heap
  {
    WatchersIn(Contents(heap[..], end))
  }

  lemma EntryIsIn(s: seq<Entry>, end: nat, i: nat)
    requires HEAP0 <= i < end <= |s|
    ensures s[i] in Contents(s, end)
    ensures s[i].w in WatchersIn(Contents(s, end))
  {
    assert s[HEAP0..end][i - HEAP0] == s[i];
  }

  lemma EntryHasSlot(s: seq<Entry>, end: nat, e: Entry) returns (i: nat)
    requires HEAP0 <= end <= |s| && e in Contents(s, end)
    ensures InHeap(i, end) && s[i] == e
  {
    var k :| 0 <= k < end - HEAP0 && s[HEAP0..end][k] == e;
    i := HEAP0 + k;
  }

  /** Every watcher in the heap but that of slot k knows its slot. */
  ghost predicate IndexedBut(heap: array<Entry>, end: nat, k: nat)
    requires end <= heap.Length
    reads heap, (set i | HEAP0 <= i < end :: heap[i].w)`active
  {
    forall i :: InHeap(i, end) && i != k ==> heap[i].w.active == i
  }

  ghost predicate Indexed(heap: array<Entry>, end: nat)
    requires end <= heap.Length
    reads heap, (set i | HEAP0 <= i < end :: heap[i].w)`active
  {
    forall i :: InHeap(i, end) ==> heap[i].w.active == i
  }

  lemma SwapKeepsContents(s: seq<Entry>, end: nat, i: nat, j: nat)
    requires InHeap(i, end) && InHeap(j, end) && end <= |s|
    ensures Contents(s[i := s[j]][j := s[i]], end) == Contents(s, end)
  {
    hide Contents;
    EntryIsIn(s, end, i);
    ReplaceContents(s, end, i, s[j]);
    ReplaceContents(s[i := s[j]], end, j, s[i]);
    TakeBack(Contents(s, end), Contents(s[i := s[j]], end), Contents(s[i := s[j]][j := s[i]], end), s[i], s[j]);
  }

  lemma TakeBack<T>(m: multiset<T>, changed: multiset<T>, back: multiset<T>, x: T, y: T)
    requires x in m && changed == m - multiset{x} + multiset{y} && back == changed - multiset{y} + multiset{x}
    ensures back == m
  {
  }

  lemma SliceOfUpdate<T>(s: seq<T>, end: nat, i: nat, e: T)
    requires InHeap(i, end) && end <= |s|
    ensures s[i := e][HEAP0..end] == s[HEAP0..end][i - HEAP0 := e]
  {
  }

  /** Moving the parent down one level moves the gap up and keeps all that still has to hold. */
  lemma GapRises(s: seq<Entry>, end: nat, k: nat)
    requires HEAP0 < k < end <= |s|
    requires OrderedBut(s, end, k) && Bridged(s, end, k)
    requires s[k].at < s[Parent(k)].at
    ensures var t := s[k := s[Parent(k)]][Parent(k) := s[k]];
      OrderedBut(t, end, Parent(k)) && Bridged(t, end, Parent(k))
  {
    var p := Parent(k);
    var t := s[k := s[p]][p := s[k]];
    forall i | InHeap(i, end) && i != p
      ensures OrderedAt(t, i)
    {
      if i == k {
      } else if Parent(i) == k {
        assert OrderedAt(s, i);
      } else {
        assert OrderedAt(s, i);
      }
    }
    forall c | InHeap(c, end) && Parent(c) == p && p > HEAP0
      ensures t[Parent(p)].at <= t[c].at
    {
      assert OrderedAt(s, p);
      assert c == k || OrderedAt(s, c);
    }
  }

  lemma GapSettles(s: seq<Entry>, end: nat, k: nat)
    requires HEAP0 <= k < end <= |s|
    requires OrderedBut(s, end, k)
    requires k == HEAP0 || s[Parent(k)].at <= s[k].at
    ensures Ordered(s, end)
  {
    assert OrderedAt(s, k);
  }

  /** Fills the gap of one slot from another, which becomes the gap. */
  method MoveEntry(heap: array<Entry>, ghost end: nat, to: nat, from: nat)
    requires InHeap(to, end) && InHeap(from, end) && to != from && end <= heap.Length && IndexedBut(heap, end, to)
    modifies heap, heap[from].w`active
    ensures heap[..] == old(heap[..])[to := old(heap[from])] && IndexedBut(heap, end, from)
  {
    heap[to] := heap[from];
    heap[to].w.active := to;
  }

  /** Moves the entry of slot k toward the root to where it belongs. */
  method UpHeap(heap: array<Entry>, ghost end: nat, k0: nat)
    requires HEAP0 <= k0 < end <= heap.Length
    requires OrderedBut(heap[..], end, k0) && Bridged(heap[..], end, k0)
    requires IndexedBut(heap, end, k0)
    requires forall i :: InHeap(i, end) && i != k0 ==> heap[i].w != heap[k0].w
    modifies heap, WatchersOf(heap, end)`active
    ensures Ordered(heap[..], end) && Indexed(heap, end)
    ensures Contents(heap[..], end) == Contents(old(heap[..]), end)
    ensures forall i :: 0 <= i < heap.Length && !InHeap(i, end) ==> heap[i] == old(heap[i])
  {
    hide OrderedBut, Ordered, Bridged, Contents;
    var k := k0;
    var he := heap[k];
    ghost var s := heap[..];
    while true
      invariant HEAP0 <= k <= k0
      invariant heap[..][k := he] == s
      invariant OrderedBut(s, end, k) && Bridged(s, end, k)
      invariant Contents(s, end) == Contents(old(heap[..]), end)
      invariant IndexedBut(heap, end, k)
      invariant forall i :: InHeap(i, end) && i != k ==> heap[i].w != he.w
      invariant forall i :: 0 <= i < heap.Length && !InHeap(i, end) ==> heap[i] == old(heap[i])
      decreases k
    {
      var p := Parent(k);
      if p == k || heap[p].at <= he.at {
        break;
      }
      GapRises(s, end, k);
      SwapKeepsContents(s, end, k, p);
      EntryIsIn(s, end, p);
      s := s[k := s[p]][p := he];
      MoveEntry(heap, end, k, p);
      k := p;
    }
    GapSettles(s, end, k);
    EntryIsIn(s, end, k);
    heap[k] := he;
    he.w.active := k;
  }

  /** Moving the earliest child up one level moves the gap down and keeps all that still has to hold. */
  lemma GapSinks(s: seq<Entry>, end: nat, k: nat, c: nat)
    requires InHeap(k, end) && InHeap(c, end) && end <= |s|
    requires c != k && Parent(c) == k
    requires OrderedAbove(s, end, k) && Bridged(s, end, k)
    requires s[c].at < s[k].at
    requires forall d :: InHeap(d, end) && d != k && Parent(d) == k ==> s[c].at <= s[d].at
    ensures var t := s[k := s[c]][c := s[k]];
      OrderedAbove(t, end, c) && Bridged(t, end, c)
  {
    var t := s[k := s[c]][c := s[k]];
    forall i | InHeap(i, end) && (Parent(i) != c || i == c)
      ensures OrderedAt(t, i)
    {
      if i == k || i == c {
      } else if Parent(i) != k {
        assert OrderedAt(s, i);
      }
    }
    forall d | InHeap(d, end) && Parent(d) == c
      ensures t[Parent(c)].at <= t[d].at
    {
      assert OrderedAt(s, d);
    }
  }

  lemma GapRests(s: seq<Entry>, end: nat, k: nat)
    requires InHeap(k, end) && end <= |s|
    requires OrderedAbove(s, end, k)
    requires forall d :: InHeap(d, end) && d != k && Parent(d) == k ==> s[k].at <= s[d].at
    ensures Ordered(s, end)
  {
    forall i | InHeap(i, end)
      ensures OrderedAt(s, i)
    {
      if i != k && Parent(i) == k {
      } else {
      }
    }
  }

  /**
   * The earliest of the children of slot k: all four at once, or those there are. In the second
   * case there are at most three, so the code's test of a fourth one never succeeds and is left out.
   */
  method EarliestChild(heap: array<Entry>, end: nat, pos: nat, ghost k: nat) returns (minpos: nat)
    requires InHeap(k, end) && end <= heap.Length
    requires pos == FirstChild(k) && pos < end
    ensures InHeap(minpos, end) && minpos != k && Parent(minpos) == k
    ensures forall d :: InHeap(d, end) && d != k && Parent(d) == k ==> heap[minpos].at <= heap[d].at
  {
    minpos := pos;
    if pos + DHEAP - 1 < end {
      if heap[pos + 1].at < heap[minpos].at { minpos := pos + 1; }
      if heap[pos + 2].at < heap[minpos].at { minpos := pos + 2; }
      if heap[pos + 3].at < heap[minpos].at { minpos := pos + 3; }
    } else {
      if pos + 1 < end && heap[pos + 1].at < heap[minpos].at { minpos := pos + 1; }
      if pos + 2 < end && heap[pos + 2].at < heap[minpos].at { minpos := pos + 2; }
    }
    ParentOfChild(k, minpos);
    forall d | InHeap(d, end) && d != k && Parent(d) == k
      ensures heap[minpos].at <= heap[d].at
    {
      assert d == pos || d == pos + 1 || d == pos + 2 || d == pos + 3;
    }
  }

  /** Moves the entry of slot k away from the root to where it belongs, in a heap of n entries. */
  method DownHeap(heap: array<Entry>, n: nat, k0: nat)
    requires n + HEAP0 <= heap.Length && InHeap(k0, n + HEAP0)
    requires OrderedAbove(heap[..], n + HEAP0, k0) && Bridged(heap[..], n + HEAP0, k0)
    requires IndexedBut(heap, n + HEAP0, k0)
    requires forall i :: InHeap(i, n + HEAP0) && i != k0 ==> heap[i].w != heap[k0].w
    modifies heap, WatchersOf(heap, n + HEAP0)`active
    ensures Ordered(heap[..], n + HEAP0) && Indexed(heap, n + HEAP0)
    ensures Contents(heap[..], n + HEAP0) == Contents(old(heap[..]), n + HEAP0)
    ensures forall i :: 0 <= i < heap.Length && !InHeap(i, n + HEAP0) ==> heap[i] == old(heap[i])
  {
    hide OrderedAbove, Ordered, Bridged, Contents;
    var end := n + HEAP0;
    var k := k0;
    var he := heap[k];
    ghost var s := heap[..];
    while true
      invariant InHeap(k, end)
      invariant heap[..][k := he] == s
      invariant OrderedAbove(s, end, k) && Bridged(s, end, k)
      invariant Contents(s, end) == Contents(old(heap[..]), end)
      invariant IndexedBut(heap, end, k)
      invariant forall i :: InHeap(i, end) && i != k ==> heap[i].w != he.w
      invariant forall i :: 0 <= i < heap.Length && !InHeap(i, end) ==> heap[i] == old(heap[i])
      decreases end - k
    {
      var pos := FirstChild(k);
      if pos >= end {
        break;
      }
      var minpos := EarliestChild(heap, end, pos, k);
      assert forall d :: InHeap(d, end) && d != k ==> s[d] == heap[d];
      if he.at <= heap[minpos].at {
        break;
      }
      GapSinks(s, end, k, minpos);
      SwapKeepsContents(s, end, k, minpos);
      EntryIsIn(s, end, minpos);
      s := s[k := s[minpos]][minpos := he];
      MoveEntry(heap, end, k, minpos);
      k := minpos;
    }
    GapRests(s, end, k);
    EntryIsIn(s, end, k);
    heap[k] := he;
    he.w.active := k;
  }

  /** Moves a changed entry to where it belongs. */
  method AdjustHeap(heap: array<Entry>, n: nat, k: nat)
    requires n + HEAP0 <= heap.Length && InHeap(k, n + HEAP0)
    requires Loose(heap[..], n + HEAP0, k)
    requires IndexedBut(heap, n + HEAP0, k)
    requires forall i :: InHeap(i, n + HEAP0) && i != k ==> heap[i].w != heap[k].w
    modifies heap, WatchersOf(heap, n + HEAP0)`active
    ensures Ordered(heap[..], n + HEAP0) && Indexed(heap, n + HEAP0)
    ensures Contents(heap[..], n + HEAP0) == Contents(old(heap[..]), n + HEAP0)
    ensures forall i :: 0 <= i < heap.Length && !InHeap(i, n + HEAP0) ==> heap[i] == old(heap[i])
  {
    hide Ordered, OrderedBut, OrderedAbove, Bridged, Loose, Contents;
    LooseOneWay(heap[..], n + HEAP0, k);
    if k > HEAP0 && heap[k].at <= heap[Parent(k)].at {
      UpHeap(heap, n + HEAP0, k);
    } else {
      DownHeap(heap, n, k);
    }
  }

  /** Heap order everywhere but around slot k. */
  ghost predicate Loose(s: seq<Entry>, end: nat, k: nat)
    requires InHeap(k, end) && end <= |s|
  {
    && Bridged(s, end, k)
    && forall i :: InHeap(i, end) && i != k && Parent(i) != k ==> OrderedAt(s, i)
  }

  lemma LooseOneWay(s: seq<Entry>, end: nat, k: nat)
    requires InHeap(k, end) && end <= |s| && Loose(s, end, k)
    ensures Bridged(s, end, k)
    ensures if k > HEAP0 && s[k].at <= s[Parent(k)].at then OrderedBut(s, end, k) else OrderedAbove(s, end, k)
  {
    if k > HEAP0 && s[k].at <= s[Parent(k)].at {
      forall i | InHeap(i, end) && i != k
        ensures OrderedAt(s, i)
      {
      }
    } else {
      assert OrderedAt(s, k);
    }
  }

  /** Establishes heap order and slot numbers in any array of distinct watchers, one entry after the other. */
  method ReHeap(heap: array<Entry>, n: nat)
    requires n + HEAP0 <= heap.Length
    requires forall i, j :: InHeap(i, n + HEAP0) && InHeap(j, n + HEAP0) && i != j ==> heap[i].w != heap[j].w
    modifies heap, WatchersOf(heap, n + HEAP0)`active
    ensures Ordered(heap[..], n + HEAP0) && Indexed(heap, n + HEAP0)
    ensures Contents(heap[..], n + HEAP0) == Contents(old(heap[..]), n + HEAP0)
    ensures forall i :: 0 <= i < heap.Length && !InHeap(i, n + HEAP0) ==> heap[i] == old(heap[i])
  {
    hide Ordered, OrderedBut, Bridged, Contents;
    Single(heap[..]);
    for i := 0 to n
      invariant Ordered(heap[..], i + HEAP0) && Indexed(heap, i + HEAP0)
      invariant Contents(heap[..], i + HEAP0) == Contents(old(heap[..]), i + HEAP0)
      invariant forall j :: 0 <= j < heap.Length && !InHeap(j, i + HEAP0) ==> heap[j] == old(heap[j])
    {
      GrowContents(heap[..], i + HEAP0);
      GrowContents(old(heap[..]), i + HEAP0);
      DistinctFromRest(heap[..], old(heap[..]), i + HEAP0);
      AppendLeaf(heap[..], i + HEAP0);
      PartOfHeap(old(heap[..]), i + 1 + HEAP0, n + HEAP0);
      UpHeap(heap, i + 1 + HEAP0, i + HEAP0);
    }
  }

  lemma Single(s: seq<Entry>)
    requires HEAP0 <= |s|
    ensures Ordered(s, HEAP0) && Contents(s, HEAP0) == multiset{}
  {
  }

  /** An entry put behind the last one has no children yet. */
  lemma AppendLeaf(s: seq<Entry>, end: nat)
    requires HEAP0 <= end < |s| && Ordered(s, end)
    ensures OrderedBut(s, end + 1, end) && Bridged(s, end + 1, end)
  {
    assert forall i :: InHeap(i, end) ==> OrderedAt(s, i);
  }

  lemma PartOfHeap(s: seq<Entry>, part: nat, end: nat)
    requires HEAP0 <= part <= end <= |s|
    ensures WatchersIn(Contents(s, part)) <= WatchersIn(Contents(s, end))
  {
    assert s[HEAP0..end] == s[HEAP0..part] + s[part..end];
  }

  lemma GrowContents(s: seq<Entry>, end: nat)
    requires HEAP0 <= end < |s|
    ensures Contents(s, end + 1) == Contents(s, end) + multiset{s[end]}
  {
    assert s[HEAP0..end + 1] == s[HEAP0..end] + [s[end]];
  }

  lemma DistinctFromRest(s: seq<Entry>, t: seq<Entry>, end: nat)
    requires HEAP0 <= end < |s| == |t| && s[end] == t[end]
    requires Contents(s, end) == Contents(t, end)
    requires forall i :: InHeap(i, end) ==> t[i].w != t[end].w
    ensures forall i :: InHeap(i, end) ==> s[i].w != s[end].w
  {
    forall i | InHeap(i, end)
      ensures s[i].w != s[end].w
    {
      EntryIsIn(s, end, i);
      assert s[i] in t[HEAP0..end];
    }
  }

  lemma {:induction false} RootIsEarliest(s: seq<Entry>, end: nat, i: nat)
    requires InHeap(i, end) && end <= |s| && Ordered(s, end)
    ensures s[HEAP0].at <= s[i].at
    decreases i
  {
    if i > HEAP0 {
      assert OrderedAt(s, i);
      RootIsEarliest(s, end, Parent(i));
    }
  }

  lemma ReplaceContents(s: seq<Entry>, end: nat, k: nat, e: Entry)
    requires InHeap(k, end) && end <= |s|
    ensures Contents(s[k := e], end) == Contents(s, end) - multiset{s[k]} + multiset{e}
  {
    SliceOfUpdate(s, end, k, e);
  }

  ghost predicate Distinct(s: seq<Entry>, end: nat)
    requires end <= |s|
  {
    forall i, j :: InHeap(i, end) && InHeap(j, end) && i != j ==> s[i].w != s[j].w
  }

  /** The entries after slot k was given up: the last one moves into it. */
  function Without(s: seq<Entry>, end: nat, k: nat): (t: seq<Entry>)
    requires InHeap(k, end) && end <= |s|
    ensures |t| == |s|
  {
    if k < end - 1 then s[k := s[end - 1]] else s
  }

  lemma TakeLast<T>(part: multiset<T>, full: multiset<T>, y: T)
    requires full == part + multiset{y}
    ensures full - multiset{y} == part
  {
  }

  lemma TakeOther<T>(part: multiset<T>, full: multiset<T>, after: multiset<T>, x: T, y: T)
    requires full == part + multiset{y} && x in part && after == part - multiset{x} + multiset{y}
    ensures after == full - multiset{x}
  {
  }

  lemma RemoveEntry(s: seq<Entry>, end: nat, k: nat)
    requires InHeap(k, end) && end <= |s|
    ensures Contents(Without(s, end, k), end - 1) == Contents(s, end) - multiset{s[k]}
  {
    hide Contents;
    GrowContents(s, end - 1);
    if k < end - 1 {
      EntryIsIn(s, end - 1, k);
      ReplaceContents(s, end - 1, k, s[end - 1]);
      TakeOther(Contents(s, end - 1), Contents(s, end), Contents(s[k := s[end - 1]], end - 1), s[k], s[end - 1]);
    } else {
      TakeLast(Contents(s, end - 1), Contents(s, end), s[k]);
    }
  }

  /** Giving up a slot takes its watcher out, and no other one. */
  lemma WatchersAfterRemove(s: seq<Entry>, end: nat, k: nat)
    requires InHeap(k, end) && end <= |s| && Distinct(s, end)
    ensures WatchersIn(Contents(Without(s, end, k), end - 1)) == WatchersIn(Contents(s, end)) - {s[k].w}
  {
    hide Contents, Without;
    var t := Without(s, end, k);
    var before, after := Contents(s, end), Contents(t, end - 1);
    RemoveEntry(s, end, k);
    GoneFromHeap(s, end, k);
    forall w | w in WatchersIn(before) - {s[k].w}
      ensures w in WatchersIn(after)
    {
      var e :| e in before && e.w == w;
      assert e in after;
    }
  }

  lemma GoneFromHeap(s: seq<Entry>, end: nat, k: nat)
    requires InHeap(k, end) && end <= |s| && Distinct(s, end)
    ensures s[k].w !in WatchersIn(Contents(Without(s, end, k), end - 1))
  {
    hide Contents;
    var t := Without(s, end, k);
    forall e | e in Contents(t, end - 1)
      ensures e.w != s[k].w
    {
      var i := EntryHasSlot(t, end - 1, e);
    }
  }

  /** A new deadline for the watcher of slot k leaves the same watchers in the heap. */
  lemma WatchersAfterReplace(s: seq<Entry>, end: nat, k: nat, e: Entry)
    requires InHeap(k, end) && end <= |s| && e.w == s[k].w
    ensures WatchersIn(Contents(s[k := e], end)) == WatchersIn(Contents(s, end))
  {
    var rest := Contents(s, end) - multiset{s[k]};
    EntryIsIn(s, end, k);
    ReplaceContents(s, end, k, e);
    WatchersAfterAdd(rest, s[k]);
    WatchersAfterAdd(rest, e);
    assert rest + multiset{s[k]} == Contents(s, end);
  }

  /** The entries are those of a set of timers with these deadlines. */
  ghost predicate Agree(entries: multiset<Entry>, live: map<Watcher, real>) {
    && (forall e :: e in entries ==> e.w in live && e.at == live[e.w])
    && (forall w :: w in live ==> w in WatchersIn(entries))
  }

  lemma AgreeingWatchers(entries: multiset<Entry>, live: map<Watcher, real>)
    requires Agree(entries, live)
    ensures WatchersIn(entries) == live.Keys
  {
  }

  lemma AgreeAfterAdd(entries: multiset<Entry>, live: map<Watcher, real>, e: Entry)
    requires Agree(entries, live) && e.w !in live
    ensures Agree(entries + multiset{e}, live[e.w := e.at])
  {
    hide WatchersIn;
    WatchersAfterAdd(entries, e);
  }

  lemma AgreeAfterRemove(s: seq<Entry>, end: nat, k: nat, live: map<Watcher, real>)
    requires InHeap(k, end) && end <= |s| && Distinct(s, end)
    requires Agree(Contents(s, end), live)
    ensures Agree(Contents(Without(s, end, k), end - 1), live - {s[k].w})
  {
    hide Contents, Without, Distinct;
    var after := Contents(Without(s, end, k), end - 1);
    RemoveEntry(s, end, k);
    WatchersAfterRemove(s, end, k);
    forall e | e in after
      ensures e.w in live && e.w != s[k].w && e.at == live[e.w]
    {
      assert e in Contents(s, end);
      assert e.w in WatchersIn(after);
    }
  }

  lemma AgreeAfterReplace(s: seq<Entry>, end: nat, k: nat, at: real, live: map<Watcher, real>)
    requires InHeap(k, end) && end <= |s| && Distinct(s, end)
    requires Agree(Contents(s, end), live)
    ensures Agree(Contents(s[k := Entry(at, s[k].w)], end), live[s[k].w := at])
  {
    hide Contents, WatchersIn;
    var t, w := s[k := Entry(at, s[k].w)], s[k].w;
    WatchersAfterReplace(s, end, k, Entry(at, w));
    EntryIsIn(s, end, k);
    forall e | e in Contents(t, end)
      ensures e.w in live && e.at == live[w := at][e.w]
    {
      var i := EntryHasSlot(t, end, e);
      if i != k {
        EntryIsIn(s, end, i);
      }
    }
  }

  /** Any change of one entry leaves heap order around all the others. */
  lemma LooseAfterChange(s: seq<Entry>, end: nat, k: nat, e: Entry)
    requires InHeap(k, end) && end <= |s| && Ordered(s, end)
    ensures Loose(s[k := e], end, k)
  {
    var t := s[k := e];
    forall i | InHeap(i, end) && i != k && Parent(i) != k
      ensures OrderedAt(t, i)
    {
      assert OrderedAt(s, i);
    }
    forall c | InHeap(c, end) && Parent(c) == k && k > HEAP0
      ensures t[Parent(k)].at <= t[c].at
    {
      assert OrderedAt(s, c) && OrderedAt(s, k);
    }
  }

  lemma OrderedPart(s: seq<Entry>, part: nat, end: nat)
    requires part <= end <= |s| && Ordered(s, end)
    ensures Ordered(s, part)
  {
  }

  lemma SamePrefix(s: seq<Entry>, t: seq<Entry>, end: nat)
    requires HEAP0 <= end <= |s| && end <= |t| && s[..end] == t[..end]
    ensures Contents(s, end) == Contents(t, end)
    ensures Ordered(s, end) ==> Ordered(t, end)
  {
    assert s[HEAP0..end] == s[..end][HEAP0..];
    assert t[HEAP0..end] == t[..end][HEAP0..];
    forall i | InHeap(i, end) && Ordered(s, end)
      ensures OrderedAt(t, i)
    {
      assert s[i] == s[..end][i] && s[Parent(i)] == s[..end][Parent(i)];
      assert OrderedAt(s, i);
    }
  }
}
