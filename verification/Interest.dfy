/**
 * Which events the kernel is asked for. Started watchers are linked to their descriptor; starting
 * and stopping only marks the descriptor as changed, and reification later brings the recorded
 * events and the poll table in line with the linked watchers.
 */
module Interest {
  import opened Collections
  import opened Watchers
  import opened Pending
  import opened PollTable
  import Growth

  const EV_IOFDSET: nat := 7
  const EV_ERROR: nat := 31
  const IOFDSET: Events := {EV_IOFDSET}
  const ANFD_REIFY: Events := {0}

  class IoWatcher {
    const base: Watcher
    var fd: nat
    var events: Events
    var next: IoWatcher?

    constructor (base: Watcher, fd: nat, events: Events)
      requires base.active == 0
      ensures this.base == base && this.fd == fd && this.events == events + IOFDSET
    {
      this.base, this.fd, this.events, next := base, fd, events + IOFDSET, null;
    }
  }

  /** What is kept for a descriptor: its watchers, the events the backend knows of, and why it is to be reified. */
  datatype Anfd = Anfd(head: IoWatcher?, events: Events, reify: Events)

  /** The list starts at `head` and is linked by the `next` fields. */
  ghost predicate Linked(head: IoWatcher?, list: seq<IoWatcher>)
    reads Members(list)`next
  {
    && head == (if list == [] then null else list[0])
    && forall k {:trigger list[k].next} :: 0 <= k < |list| ==> list[k].next == if k + 1 < |list| then list[k + 1] else null
  }

  /** The union of the events of all watchers on a list. */
  ghost function EventsOf(list: seq<IoWatcher>): Events
    reads Members(list)`events
  {
    if list == [] then {} else list[0].events + EventsOf(list[1..])
  }

  lemma {:induction false} EventsOfAppend(list: seq<IoWatcher>, w: IoWatcher)
    ensures EventsOf(list + [w]) == EventsOf(list) + w.events
  {
    if list == [] {
      assert EventsOf([w]) == w.events + EventsOf([w][1..]);
    } else {
      assert (list + [w])[1..] == list[1..] + [w];
      EventsOfAppend(list[1..], w);
    }
  }

  lemma {:induction false} EventInList(list: seq<IoWatcher>, b: nat)
    ensures b in EventsOf(list) <==> exists k :: 0 <= k < |list| && b in list[k].events
  {
    if list != [] {
      EventInList(list[1..], b);
      if b in EventsOf(list[1..]) {
        var k :| 0 <= k < |list[1..]| && b in list[1..][k].events;
        assert list[k + 1] == list[1..][k];
      }
    }
  }

  /** The list without the first occurrence of a watcher. */
  function Remove(list: seq<IoWatcher>, w: IoWatcher): seq<IoWatcher> {
    if list == [] then [] else if list[0] == w then list[1..] else [list[0]] + Remove(list[1..], w)
  }

  lemma {:induction false} RemoveAt(list: seq<IoWatcher>, k: nat)
    requires k < |list| && list[k] !in list[..k]
    ensures Remove(list, list[k]) == list[..k] + list[k + 1..]
    decreases k
  {
    if k > 0 {
      assert list[0] == list[..k][0];
      assert list[1..][..k - 1] == list[..k][1..];
      RemoveAt(list[1..], k - 1);
      assert list[1..][k - 1 + 1..] == list[k + 1..];
    }
  }

  /** The changed descriptors are listed, each once. */
  ghost predicate DirtyListed(anfds: seq<Anfd>, fdchanges: seq<nat>) {
    && (forall fd :: 0 <= fd < |anfds| ==> (anfds[fd].reify != {} <==> fd in fdchanges))
    && (forall i :: 0 <= i < |fdchanges| ==> fdchanges[i] < |anfds|)
    && NoRepeats(fdchanges)
  }

  /** What the poll table should hold. */
  function ToPoll(anfds: seq<Anfd>): map<nat, Events> {
    map fd: nat | fd < |anfds| && anfds[fd].events != {} :: PollEvents(anfds[fd].events)
  }

  /** One list of started watchers of a descriptor. */
  ghost predicate ListOk(fd: nat, head: IoWatcher?, list: seq<IoWatcher>)
    reads Members(list)`next, Members(list)`fd, (set w | w in list :: w.base)`active
  {
    && Linked(head, list) && NoRepeats(list)
    && forall k :: 0 <= k < |list| ==> list[k].fd == fd && list[k].base.active == 1
  }

  /** A started watcher is on the list of its descriptor. */
  ghost predicate WatcherOk(lists: seq<seq<IoWatcher>>, w: IoWatcher)
    reads w`fd, w`events, w.base`active
  {
    w.base.active != 0 ==> w.fd < |lists| && w in lists[w.fd] && w.events <= {EV_READ, EV_WRITE}
  }

  /** The lists hold exactly the started watchers, each on the list of its descriptor. */
  ghost predicate ListsOk(anfds: seq<Anfd>, lists: seq<seq<IoWatcher>>, known: set<IoWatcher>)
    reads known`next, known`fd, known`events, (set w | w in known :: w.base)`active
  {
    && |lists| == |anfds|
    && (forall fd :: 0 <= fd < |lists| ==> Members(lists[fd]) <= known && ListOk(fd, anfds[fd].head, lists[fd]))
    && (forall w :: w in known ==> WatcherOk(lists, w))
    && (forall v, w :: v in known && w in known && v.base == w.base ==> v == w)
  }

  /** Unless a descriptor is to be reified, its recorded events are those of its watchers. */
  ghost predicate Recorded(anfds: seq<Anfd>, lists: seq<seq<IoWatcher>>, known: set<IoWatcher>)
    requires |lists| == |anfds| && forall fd :: 0 <= fd < |lists| ==> Members(lists[fd]) <= known
    reads known`events
  {
    forall fd :: 0 <= fd < |lists| && anfds[fd].reify == {} ==> anfds[fd].events == EventsOf(lists[fd])
  }

  /** As `Recorded`, for all descriptors but one. */
  ghost predicate RecordedBut(anfds: seq<Anfd>, lists: seq<seq<IoWatcher>>, known: set<IoWatcher>, but: nat)
    requires |lists| == |anfds| && forall fd :: 0 <= fd < |lists| ==> Members(lists[fd]) <= known
    reads known`events
  {
    forall fd :: 0 <= fd < |lists| && fd != but && anfds[fd].reify == {} ==> anfds[fd].events == EventsOf(lists[fd])
  }

  /** The recorded events and the reasons to reify are of no concern to the lists. */
  lemma OnlyHeadsMatter(before: seq<Anfd>, after: seq<Anfd>, lists: seq<seq<IoWatcher>>, known: set<IoWatcher>)
    requires ListsOk(before, lists, known)
    requires |after| == |before| && forall fd :: 0 <= fd < |after| ==> after[fd].head == before[fd].head
    ensures ListsOk(after, lists, known)
  {
    hide Linked, NoRepeats;
    forall fd | 0 <= fd < |lists|
      ensures Members(lists[fd]) <= known && ListOk(fd, after[fd].head, lists[fd])
    {
      assert ListOk(fd, before[fd].head, lists[fd]);
    }
  }

  lemma ListsAfterGrowth(anfds: seq<Anfd>, lists: seq<seq<IoWatcher>>, known: set<IoWatcher>, fdchanges: seq<nat>, n: nat)
    requires ListsOk(anfds, lists, known) && Recorded(anfds, lists, known) && DirtyListed(anfds, fdchanges)
    ensures var a, l := anfds + seq(n, _ => Anfd(null, {}, {})), lists + seq(n, _ => []);
      ListsOk(a, l, known) && Recorded(a, l, known) && DirtyListed(a, fdchanges) && ToPoll(a) == ToPoll(anfds)
  {
    var a, l := anfds + seq(n, _ => Anfd(null, {}, {})), lists + seq(n, _ => []);
    assert forall w :: w in known ==> WatcherOk(lists, w) && WatcherOk(l, w);
  }

  /** The feeds for an event on a descriptor: one for every watcher on the list that wants some of it. */
  ghost function Dispatch(list: seq<IoWatcher>, revents: Events): seq<Action>
    reads Members(list)`events
  {
    if list == [] then [] else
    (if list[0].events * revents != {} then [Feed(list[0].base, list[0].events * revents)] else []) + Dispatch(list[1..], revents)
  }

  lemma {:induction false} DispatchedExactly(list: seq<IoWatcher>, revents: Events, base: Watcher, events: Events)
    ensures Feed(base, events) in Dispatch(list, revents)
      <==> events != {} && exists k :: 0 <= k < |list| && list[k].base == base && list[k].events * revents == events
    ensures forall a :: a in Dispatch(list, revents) ==> a.Feed? && exists k :: 0 <= k < |list| && list[k].base == a.w
  {
    if list != [] {
      DispatchedExactly(list[1..], revents, base, events);
      assert forall k :: 0 <= k < |list[1..]| ==> list[1..][k] == list[k + 1];
    }
  }

  lemma ToPollAfterChange(anfds: seq<Anfd>, fd: nat, a: Anfd)
    requires fd < |anfds|
    ensures ToPoll(anfds[fd := a]) == if a.events == anfds[fd].events then ToPoll(anfds) else if a.events == {} then ToPoll(anfds) - {fd}
      else ToPoll(anfds)[fd := PollEvents(a.events)]
  {
  }

  class IoLoop {
    const pq: PendingQueues
    const table: Table
    var anfds: seq<Anfd>
    var fdchanges: seq<nat>
    ghost var lists: seq<seq<IoWatcher>>
    ghost var known: set<IoWatcher>

    /** The watchers linked to a descriptor. */
    ghost function ListAt(fd: nat): seq<IoWatcher>
      reads this`lists
    {
      if fd < |lists| then lists[fd] else []
    }

    ghost predicate TableOk()
      reads this`anfds, table, table.polls, table.pollidxs
    {
      table.Valid() && table.Polled() == ToPoll(anfds)
    }

    ghost predicate Consistent()
      reads this, known`next, known`fd, known`events, (set w | w in known :: w.base)`active
    {
      && ListsOk(anfds, lists, known)
      && Recorded(anfds, lists, known)
      && DirtyListed(anfds, fdchanges)
    }

    ghost predicate Valid()
      reads this, known`next, known`fd, known`events, (set w | w in known :: w.base)`active
      reads table, table.polls, table.pollidxs, pq`queues, pq`watchers, pq.watchers`pending
    {
      && Consistent() && TableOk()
      && pq.Valid() && (forall w :: w in known ==> w.base in pq.watchers)
    }

    constructor (pq: PendingQueues)
      requires pq.Valid()
      ensures Valid() && this.pq == pq && known == {} && anfds == []
      ensures fresh(table) && fresh(table.polls) && fresh(table.pollidxs)
    {
      this.pq, anfds, fdchanges, lists, known := pq, [], [], [], {};
      table := new Table();
    }

    /** A stopped watcher becomes one of this loop's. */
    method AddWatcher(w: IoWatcher)
      requires Valid() && w.base != pq.dummy && w.base.priority < NUMPRI && w.base.active == 0 && w.base.pending == 0
      requires forall v :: v in known ==> v.base != w.base
      modifies this`known, pq`watchers
      ensures Valid() && known == old(known) + {w} && pq.watchers == old(pq.watchers) + {w.base}
    {
      hide PendingQueues.Valid, Linked, NoRepeats, DirtyListed, TableOk;
      pq.AddWatcher(w.base);
      known := known + {w};
      forall d | 0 <= d < |lists|
        ensures Members(lists[d]) <= known && ListOk(d, anfds[d].head, lists[d])
      {
        assert old(ListOk(d, anfds[d].head, lists[d]));
      }
      forall v | v in known
        ensures WatcherOk(lists, v)
      {
        assert v != w ==> old(WatcherOk(lists, v));
      }
    }

    /** Marks a descriptor as changed. */
    method FdChange(fd: nat, flags: Events)
      requires fd < |anfds| && flags != {} && DirtyListed(anfds, fdchanges)
      modifies this`anfds, this`fdchanges
      ensures DirtyListed(anfds, fdchanges) && fd in fdchanges
      ensures anfds == old(anfds)[fd := old(anfds)[fd].(reify := old(anfds)[fd].reify + flags)]
    {
      var reify := anfds[fd].reify;
      anfds := anfds[fd := anfds[fd].(reify := reify + flags)];
      if reify == {} {
        fdchanges := fdchanges + [fd];
      }
    }

    /** Makes room for a descriptor; new entries are zero. */
    method NeedFd(fd: nat)
      requires Consistent() && TableOk()
      modifies this`anfds, this`lists
      ensures Consistent() && TableOk()
      ensures fd < |anfds| && forall d: nat :: ListAt(d) == old(ListAt(d))
    {
      hide ListsOk, Recorded, DirtyListed;
      if fd + 1 > |anfds| {
        var size, _ := Growth.NextSize(32, |anfds|, fd + 1, Growth.ADDRESS_SIZE);
        var n := size - |anfds|;
        ListsAfterGrowth(anfds, lists, known, fdchanges, n);
        anfds := anfds + seq(n, _ => Anfd(null, {}, {}));
        lists := lists + seq(n, _ => []);
      }
    }

    /** A stopped watcher is on no list. */
    lemma StoppedIsUnlisted(w: IoWatcher)
      requires ListsOk(anfds, lists, known) && w.base.active == 0
      ensures forall d :: 0 <= d < |lists| ==> w !in lists[d]
    {
      forall d | 0 <= d < |lists|
        ensures w !in lists[d]
      {
        assert ListOk(d, anfds[d].head, lists[d]);
      }
    }

    /** The events of a stopped watcher may be set to anything. */
    method SetEvents(w: IoWatcher, events: Events)
      requires Consistent() && w.base.active == 0
      modifies w`events
      ensures Consistent() && w.events == events
    {
      hide DirtyListed;
      StoppedIsUnlisted(w);
      w.events := events;
      forall v | v in known
        ensures WatcherOk(lists, v)
      {
        assert old(WatcherOk(lists, v));
      }
    }

    /** A watcher linked to the front of a list. */
    lemma LinkedFront(fd: nat, w: IoWatcher, head: IoWatcher?, list: seq<IoWatcher>)
      requires ListOk(fd, head, list) && w !in list
      requires w.next == head && w.fd == fd && w.base.active == 1
      ensures ListOk(fd, w, [w] + list)
    {
    }

    /** Starts a watcher and puts it in front of the list of its descriptor. */
    method Link(w: IoWatcher)
      requires w in known && w.base.active == 0 && w.fd < |anfds|
      requires ListsOk(anfds, lists, known) && w.events <= {EV_READ, EV_WRITE} && Recorded(anfds, lists, known)
      modifies this`anfds, this`lists, w`next, w.base`active
      ensures ListsOk(anfds, lists, known) && w.base.active == 1 && RecordedBut(anfds, lists, known, w.fd)
      ensures forall d: nat :: ListAt(d) == if d == w.fd then [w] + old(ListAt(d)) else old(ListAt(d))
      ensures anfds == old(anfds)[w.fd := old(anfds)[w.fd].(head := w)]
    {
      hide Linked, NoRepeats, EventsOf;
      StoppedIsUnlisted(w);
      var fd := w.fd;
      ghost var heads, linked := anfds, lists;
      w.base.active := 1;
      w.next := anfds[fd].head;
      anfds := anfds[fd := anfds[fd].(head := w)];
      lists := lists[fd := [w] + lists[fd]];
      forall d | 0 <= d < |lists|
        ensures Members(lists[d]) <= known && ListOk(d, anfds[d].head, lists[d])
      {
        assert old(ListOk(d, anfds[d].head, lists[d]));
        assert ListOk(d, heads[d].head, linked[d]);
        if d == fd {
          LinkedFront(fd, w, heads[fd].head, linked[fd]);
        }
      }
      forall v | v in known
        ensures WatcherOk(lists, v)
      {
        assert old(WatcherOk(lists, v));
      }
    }

    /** Marking a descriptor as changed makes up for a change of its list. */
    method Mark(fd: nat, flags: Events, ghost before: seq<Anfd>)
      requires fd < |anfds| == |before| && flags != {} && anfds == before[fd := before[fd].(head := anfds[fd].head)]
      requires DirtyListed(before, fdchanges) && table.Valid() && table.Polled() == ToPoll(before)
      requires ListsOk(anfds, lists, known) && RecordedBut(anfds, lists, known, fd)
      modifies this`anfds, this`fdchanges
      ensures Consistent() && TableOk() && fd in fdchanges && |anfds| == |old(anfds)|
    {
      hide ListOk, WatcherOk;
      assert DirtyListed(anfds, fdchanges);
      FdChange(fd, flags);
      OnlyHeadsMatter(old(anfds), anfds, lists, known);
      assert ToPoll(anfds) == ToPoll(before);
    }

    /** Starts a watcher: its descriptor is marked as changed. */
    method IoStart(w: IoWatcher)
      requires Valid() && w in known && w.events <= {EV_READ, EV_WRITE} + IOFDSET
      modifies this`anfds, this`lists, this`fdchanges, w`next, w`events, w.base`active
      ensures Valid() && w.base.active == 1
      ensures table.Polled() == old(table.Polled())
      ensures old(w.base.active) != 0 ==> lists == old(lists) && fdchanges == old(fdchanges) && w.events == old(w.events)
      ensures old(w.base.active) == 0 ==> w.fd in fdchanges && w.events == old(w.events) - IOFDSET
      ensures old(w.base.active) == 0 ==>
        forall d: nat :: ListAt(d) == if d == w.fd then [w] + old(ListAt(d)) else old(ListAt(d))
    {
      hide Consistent, TableOk, PendingQueues.Valid;
      if w.base.active != 0 {
        ActiveIsOne(w);
        return;
      }
      StartStopped(w);
    }

    method StartStopped(w: IoWatcher)
      requires Consistent() && TableOk() && w in known && w.base.active == 0 && w.events <= {EV_READ, EV_WRITE} + IOFDSET
      modifies this`anfds, this`lists, this`fdchanges, w`next, w`events, w.base`active
      ensures Consistent() && TableOk() && w.base.active == 1
      ensures w.fd in fdchanges && w.events == old(w.events) - IOFDSET
      ensures forall d: nat :: ListAt(d) == if d == w.fd then [w] + old(ListAt(d)) else old(ListAt(d))
    {
      hide ListsOk, DirtyListed, Recorded, RecordedBut, ToPoll;
      var flags := w.events * IOFDSET + ANFD_REIFY;
      NeedFd(w.fd);
      SetEvents(w, w.events - IOFDSET);
      ghost var before := anfds;
      Link(w);
      Mark(w.fd, flags, before);
    }

    lemma ActiveIsOne(w: IoWatcher)
      requires Consistent() && w in known && w.base.active != 0
      ensures w.base.active == 1
    {
      assert WatcherOk(lists, w) && ListOk(w.fd, anfds[w.fd].head, lists[w.fd]);
    }

    /** Takes a watcher off the list of its descriptor. */
    method WlistDel(w: IoWatcher) returns (ghost k: nat)
      requires w in known && w.fd < |anfds| == |lists| && w in lists[w.fd] && Linked(anfds[w.fd].head, lists[w.fd]) && NoRepeats(lists[w.fd])
      modifies this`anfds, Members(lists[w.fd])`next
      ensures k < |lists[w.fd]| && lists[w.fd][k] == w
      ensures |anfds| == |old(anfds)| && anfds == old(anfds)[w.fd := old(anfds)[w.fd].(head := anfds[w.fd].head)]
      ensures Linked(anfds[w.fd].head, lists[w.fd][..k] + lists[w.fd][k + 1..])
    {
      var fd := w.fd;
      var prev: IoWatcher?, cur := null, anfds[fd].head;
      ghost var list := lists[fd];
      k := 0;
      while cur != null && cur != w
        invariant k <= |list| && w !in list[..k]
        invariant cur == (if k < |list| then list[k] else null)
        invariant prev == (if k == 0 then null else list[k - 1])
        decreases |list| - k
      {
        prev := cur;
        cur := cur.next;
        k := k + 1;
      }
      assert cur == w by {
        assert list[..|list|] == list;
      }
      assert forall i :: 0 <= i < |list| && i != k - 1 ==> list[i] != prev;
      if prev == null {
        anfds := anfds[fd := anfds[fd].(head := cur.next)];
      } else {
        prev.next := cur.next;
      }
      SkipOne(anfds[fd].head, list, k);
    }

    /** A list whose links pass over slot k is linked without it. */
    lemma SkipOne(head: IoWatcher?, list: seq<IoWatcher>, k: nat)
      requires k < |list| && head == if k > 0 then list[0] else if |list| > 1 then list[1] else null
      requires k > 0 ==> list[k - 1].next == if k + 1 < |list| then list[k + 1] else null
      requires forall i {:trigger list[i].next} :: 0 <= i < |list| && i != k - 1 ==> list[i].next == if i + 1 < |list| then list[i + 1] else null
      ensures Linked(head, list[..k] + list[k + 1..])
    {
      var rest := list[..k] + list[k + 1..];
      forall i | 0 <= i < |rest|
        ensures rest[i].next == if i + 1 < |rest| then rest[i + 1] else null
      {
        var j := if i < k then i else i + 1;
        assert rest[i] == list[j] && (i + 1 < |rest| ==> rest[i + 1] == list[if i + 1 < k then i + 1 else i + 2]);
      }
    }

    /** All lists are right but that of one descriptor, whose links already leave out slot `k`. */
    ghost predicate LinkedWithout(fd: nat, k: nat)
      reads this`lists, this`anfds, this`known, known`next, known`fd, known`events, (set w | w in known :: w.base)`active
    {
      && fd < |lists| == |anfds| && k < |lists[fd]|
      && Members(lists[fd]) <= known && NoRepeats(lists[fd])
      && (forall i :: 0 <= i < |lists[fd]| ==> lists[fd][i].fd == fd && lists[fd][i].base.active == 1)
      && Linked(anfds[fd].head, lists[fd][..k] + lists[fd][k + 1..])
      && (forall d :: 0 <= d < |lists| && d != fd ==> Members(lists[d]) <= known && ListOk(d, anfds[d].head, lists[d]))
      && (forall w :: w in known ==> WatcherOk(lists, w))
      && (forall v, w :: v in known && w in known && v.base == w.base ==> v == w)
    }

    /** Stops a watcher that the links of its list already leave out. */
    method Deactivate(w: IoWatcher, ghost k: nat)
      requires w in known && LinkedWithout(w.fd, k) && lists[w.fd][k] == w
      modifies this`lists, w.base`active
      ensures ListsOk(anfds, lists, known) && w.base.active == 0
      ensures w.fd < |old(lists)| && lists == old(lists)[w.fd := Remove(old(lists[w.fd]), w)]
    {
      var fd := w.fd;
      ghost var list := lists[fd];
      RemoveAt(list, k);
      lists := lists[fd := list[..k] + list[k + 1..]];
      w.base.active := 0;
      forall d | 0 <= d < |lists|
        ensures Members(lists[d]) <= known && ListOk(d, anfds[d].head, lists[d])
      {
        assert d != fd ==> old(ListOk(d, anfds[d].head, lists[d]));
      }
      forall v | v in known
        ensures WatcherOk(lists, v)
      {
        assert old(WatcherOk(lists, v));
      }
    }

    /** Makes the links of a list leave out a started watcher. */
    method Detach(w: IoWatcher) returns (ghost k: nat)
      requires w in known && w.base.active != 0 && ListsOk(anfds, lists, known)
      modifies this`anfds, known`next
      ensures LinkedWithout(w.fd, k) && lists[w.fd][k] == w
      ensures |anfds| == |old(anfds)| && anfds == old(anfds)[w.fd := old(anfds)[w.fd].(head := anfds[w.fd].head)]
    {
      var fd := w.fd;
      assert WatcherOk(lists, w) && ListOk(fd, anfds[fd].head, lists[fd]);
      k := WlistDel(w);
      hide Linked;
      forall d | 0 <= d < |lists| && d != fd
        ensures Members(lists[d]) <= known && ListOk(d, anfds[d].head, lists[d])
      {
        assert old(ListOk(d, anfds[d].head, lists[d]));
      }
    }

    /** Takes a started watcher off its list and stops it. */
    method Unlink(w: IoWatcher)
      requires w in known && w.base.active != 0
      requires ListsOk(anfds, lists, known) && Recorded(anfds, lists, known)
      modifies this`anfds, this`lists, known`next, w.base`active
      ensures ListsOk(anfds, lists, known) && w.base.active == 0 && RecordedBut(anfds, lists, known, w.fd)
      ensures w.fd < |old(lists)| && lists == old(lists)[w.fd := Remove(old(lists[w.fd]), w)]
      ensures w.fd < |anfds| == |old(anfds)| && anfds == old(anfds)[w.fd := old(anfds)[w.fd].(head := anfds[w.fd].head)]
    {
      hide Remove, EventsOf, ListOk, WatcherOk, Linked, NoRepeats;
      ghost var k := Detach(w);
      Deactivate(w, k);
    }

    /** Stops a watcher: its descriptor is marked as changed, and it is not called for pending events. */
    method IoStop(w: IoWatcher)
      requires Valid() && w in known
      modifies this`anfds, this`lists, this`fdchanges, known`next, w.base`active, pq`queues, w.base`pending
      ensures Valid() && w.base.active == 0 && w.base.pending == 0 && |anfds| == |old(anfds)|
      ensures table.Polled() == old(table.Polled())
      ensures pq.queues == ApplyAction(old(pq.queues), Clear(w.base), pq.dummy)
      ensures pq.EventsFor(w.base) == {} && pq.OthersKept(w.base)
      ensures old(w.base.active) == 0 ==> lists == old(lists) && fdchanges == old(fdchanges)
      ensures old(w.base.active) != 0 ==> w.fd in fdchanges
      ensures old(w.base.active) != 0 ==>
        forall d: nat :: ListAt(d) == if d == w.fd then Remove(old(ListAt(d)), w) else old(ListAt(d))
    {
      hide ListsOk, DirtyListed, Recorded, RecordedBut, ToPoll, PendingQueues.Valid, PendingQueues.EventsFor, ApplyAction;
      var revents := pq.ClearPending(w.base);
      if w.base.active == 0 {
        return;
      }
      ghost var before := anfds;
      Unlink(w);
      Mark(w.fd, ANFD_REIFY, before);
    }

    /** The events all watchers of a descriptor want. */
    method CollectEvents(fd: nat) returns (events: Events)
      requires ListsOk(anfds, lists, known) && fd < |anfds|
      ensures events == EventsOf(lists[fd])
    {
      assert ListOk(fd, anfds[fd].head, lists[fd]);
      ghost var list, k := lists[fd], 0;
      var w := anfds[fd].head;
      events := {};
      while w != null
        invariant k <= |list| && w == (if k < |list| then list[k] else null)
        invariant events == EventsOf(list[..k])
        decreases |list| - k
      {
        EventsOfAppend(list[..k], w);
        assert list[..k + 1] == list[..k] + [w];
        events := events + w.events;
        w := w.next;
        k := k + 1;
      }
      assert list[..k] == list;
    }

    /** Brings the recorded events of one descriptor and its poll entry in line with its watchers. */
    method ReifyOne(fd: nat)
      requires ListsOk(anfds, lists, known) && TableOk() && fd < |anfds|
      modifies this`anfds, table, table.polls, table.pollidxs
      ensures ListsOk(anfds, lists, known) && TableOk()
      ensures anfds == old(anfds)[fd := Anfd(old(anfds)[fd].head, EventsOf(lists[fd]), {})]
      ensures (table.polls == old(table.polls) || fresh(table.polls)) && (table.pollidxs == old(table.pollidxs) || fresh(table.pollidxs))
    {
      hide Linked, NoRepeats, Dense, Entries;
      var oEvents, oReify := anfds[fd].events, anfds[fd].reify;
      var events := CollectEvents(fd);
      ToPollAfterChange(anfds, fd, Anfd(anfds[fd].head, events, {}));
      OnlyHeadsMatter(anfds, anfds[fd := Anfd(anfds[fd].head, events, {})], lists, known);
      anfds := anfds[fd := Anfd(anfds[fd].head, events, {})];
      if oEvents != events {
        oReify := IOFDSET;
      }
      if EV_IOFDSET in oReify {
        table.Modify(fd, oEvents, events);
      }
    }

    /** Brings the kernel's view in line with the started watchers. */
    method FdReify()
      requires Valid()
      modifies this`anfds, this`fdchanges, table, table.polls, table.pollidxs
      ensures Valid() && fdchanges == []
      ensures (table.polls == old(table.polls) || fresh(table.polls)) && (table.pollidxs == old(table.pollidxs) || fresh(table.pollidxs))
    {
      hide ListOk, WatcherOk, TableOk, EventsOf;
      ghost var start := anfds;
      for i := 0 to |fdchanges|
        invariant fdchanges == old(fdchanges) && |anfds| == |start| && ListsOk(anfds, lists, known) && TableOk()
        invariant forall d :: 0 <= d < |anfds| ==>
          if d in fdchanges[..i] then anfds[d].reify == {} && anfds[d].events == EventsOf(lists[d]) else anfds[d] == start[d]
        invariant (table.polls == old(table.polls) || fresh(table.polls)) && (table.pollidxs == old(table.pollidxs) || fresh(table.pollidxs))
      {
        ReifyOne(fdchanges[i]);
        assert fdchanges[..i + 1] == fdchanges[..i] + [fdchanges[i]];
      }
      assert fdchanges[..|fdchanges|] == fdchanges;
      fdchanges := [];
    }

    /** Some started watcher of the descriptor wants the event. */
    ghost predicate Wants(fd: nat, b: nat)
      reads this`known, known`fd, known`events, (set w | w in known :: w.base)`active
    {
      exists w :: w in known && w.base.active != 0 && w.fd == fd && b in w.events
    }

    ghost function Wanted(fd: nat): Events
      reads this`known, known`fd, known`events, (set w | w in known :: w.base)`active
    {
      set b | b in {EV_READ, EV_WRITE} && Wants(fd, b)
    }

    lemma ListIsWanted(fd: nat)
      requires ListsOk(anfds, lists, known)
      ensures Wanted(fd) == EventsOf(ListAt(fd))
    {
      forall b | b in EventsOf(ListAt(fd))
        ensures b in Wanted(fd)
      {
        EventInList(ListAt(fd), b);
        var k :| 0 <= k < |ListAt(fd)| && b in ListAt(fd)[k].events;
        assert ListOk(fd, anfds[fd].head, lists[fd]);
        assert WatcherOk(lists, lists[fd][k]);
      }
      forall b | b in Wanted(fd)
        ensures b in EventsOf(ListAt(fd))
      {
        var w :| w in known && w.base.active != 0 && w.fd == fd && b in w.events;
        assert WatcherOk(lists, w);
        var k :| 0 <= k < |lists[fd]| && lists[fd][k] == w;
        EventInList(ListAt(fd), b);
      }
    }

    /**
     * A descriptor that is not marked as changed is polled for exactly the events that its started
     * watchers want, and one that is polled for something else is marked.
     */
    lemma UnmarkedIsPolled(fd: nat)
      requires Valid() && fd !in fdchanges
      ensures fd in table.Polled() <==> Wanted(fd) != {}
      ensures fd in table.Polled() ==> AsksFor(table.Polled()[fd], Wanted(fd))
    {
      ListIsWanted(fd);
    }

    /** After reification the poll table holds exactly what the started watchers want. */
    method WhatIsPolled() returns (ghost polled: map<nat, Events>)
      requires Valid()
      modifies this`anfds, this`fdchanges, table, table.polls, table.pollidxs
      ensures Valid() && polled == table.Polled()
      ensures forall fd: nat :: fd in polled <==> Wanted(fd) != {}
      ensures forall fd: nat :: fd in polled ==> AsksFor(polled[fd], Wanted(fd))
      ensures (table.polls == old(table.polls) || fresh(table.polls)) && (table.pollidxs == old(table.pollidxs) || fresh(table.pollidxs))
    {
      hide Consistent;
      FdReify();
      polled := table.Polled();
      forall fd: nat
        ensures fd in polled <==> Wanted(fd) != {}
        ensures fd in polled ==> AsksFor(polled[fd], Wanted(fd))
      {
        UnmarkedIsPolled(fd);
      }
    }

    ghost predicate BasesOk(list: seq<IoWatcher>)
      reads pq`watchers
    {
      forall k :: 0 <= k < |list| ==> list[k].base in pq.watchers && list[k].base.priority < NUMPRI
    }

    /** The queues are those of `before` after the feeds for an event. */
    ghost predicate Dispatched(before: Queues, list: seq<IoWatcher>, revents: Events)
      reads pq`queues, Members(list)`events
    {
      && |before| == NUMPRI
      && (forall i :: 0 <= i < |Dispatch(list, revents)| ==> Dispatch(list, revents)[i].w.priority < NUMPRI)
      && pq.queues == ApplyActions(before, Dispatch(list, revents), pq.dummy)
    }

    /** The rest of the list brings the queues to `final`. */
    ghost predicate ToDispatch(final: Queues, list: seq<IoWatcher>, revents: Events)
      reads pq`queues, Members(list)`events
    {
      && |pq.queues| == NUMPRI
      && (forall i :: 0 <= i < |Dispatch(list, revents)| ==> Dispatch(list, revents)[i].w.priority < NUMPRI)
      && final == ApplyActions(pq.queues, Dispatch(list, revents), pq.dummy)
    }

    lemma DispatchPriorities(list: seq<IoWatcher>, revents: Events)
      requires BasesOk(list)
      ensures forall i :: 0 <= i < |Dispatch(list, revents)| ==> Dispatch(list, revents)[i].w.priority < NUMPRI
    {
      if list != [] {
        DispatchPriorities(list[1..], revents);
      }
    }

    /** Feeds the watcher at the front of a list if it wants some of the event. */
    method FeedFirst(w: IoWatcher, revents: Events, ghost rest: seq<IoWatcher>, ghost final: Queues)
      requires pq.Valid() && BasesOk([w] + rest) && ToDispatch(final, [w] + rest, revents)
      modifies pq`queues, pq`pendingPri, w.base`pending
      ensures pq.Valid() && ToDispatch(final, rest, revents)
    {
      hide PendingQueues.SlotOk, PendingQueues.EventsFor, PendingQueues.OthersKept;
      var ev := w.events * revents;
      ghost var all, feeds := Dispatch([w] + rest, revents), Dispatch(rest, revents);
      assert ([w] + rest)[0] == w && ([w] + rest)[1..] == rest;
      assert forall i :: 0 <= i < |feeds| ==> feeds[i] == all[i + |all| - |feeds|];
      if ev != {} {
        assert all[1..] == feeds && all[0] == Feed(w.base, ev);
        pq.FeedEvent(w.base, ev);
        assert forall o :: o in Members(rest) ==> o.events == old(o.events);
      } else {
        assert all == feeds;
      }
    }

    /** Feeds an event on a descriptor to the started watchers that want it. */
    method FdEventNoCheck(fd: nat, revents: Events)
      requires Valid() && fd < |anfds|
      modifies pq`queues, pq`pendingPri, pq.watchers`pending
      ensures Valid() && Dispatched(old(pq.queues), lists[fd], revents)
    {
      hide WatcherOk, Recorded, DirtyListed, ToPoll, PendingQueues.SlotOk, Dispatch, ApplyActions, NoRepeats;
      Listed(fd);
      ghost var list, k := lists[fd], 0;
      assert BasesOk(list);
      DispatchPriorities(list, revents);
      ghost var final: Queues := ApplyActions(pq.queues, Dispatch(list, revents), pq.dummy);
      var w := anfds[fd].head;
      assert list[0..] == list;
      while w != null
        invariant k <= |list| && w == (if k < |list| then list[k] else null)
        invariant pq.Valid() && ToDispatch(final, list[k..], revents)
        decreases |list| - k
      {
        assert list[k..] == [w] + list[k + 1..];
        FeedFirst(w, revents, list[k + 1..], final);
        w := w.next;
        k := k + 1;
      }
      NothingToDispatch(final, revents);
    }

    lemma NothingToDispatch(final: Queues, revents: Events)
      requires ToDispatch(final, [], revents)
      ensures pq.queues == final
    {
    }

    /** An event on a descriptor that changed while it was polled for is dropped. */
    method FdEvent(fd: nat, revents: Events)
      requires Valid() && fd < |anfds|
      modifies pq`queues, pq`pendingPri, pq.watchers`pending
      ensures Valid()
      ensures if fd in fdchanges then pq.queues == old(pq.queues) else Dispatched(old(pq.queues), lists[fd], revents)
    {
      hide ListsOk, Recorded, ToPoll, Dispatched, PendingQueues.Valid;
      if anfds[fd].reify == {} {
        FdEventNoCheck(fd, revents);
      }
    }

    /** A started watcher is on the list of its descriptor, and no other one of its name is. */
    lemma OnlyItself(fd: nat, w: IoWatcher, k: nat)
      requires Consistent() && w in known && fd < |anfds| && k < |ListAt(fd)| && ListAt(fd)[k].base == w.base
      ensures ListAt(fd)[k] == w && w.base.active != 0 && w.fd == fd
    {
      Listed(fd);
    }

    /** What poll reports, if these of the events can happen on a descriptor it was asked about. */
    ghost predicate Reports(mask: Events, ready: Events, revents: Events) {
      && (POLLIN in revents <==> POLLIN in mask && EV_READ in ready)
      && (POLLOUT in revents <==> POLLOUT in mask && EV_WRITE in ready)
      && revents !! {POLLERR, POLLHUP, POLLNVAL}
    }

    /** Whatever is ready on a descriptor that did not change, its watchers are fed just what they want of it. */
    lemma ReadinessIsFed(fd: nat, ready: Events, revents: Events, w: IoWatcher, ev: Events)
      requires Valid() && fd < |anfds| && fd !in fdchanges && fd in table.Polled() && w in known
      requires ready <= {EV_READ, EV_WRITE} && Reports(table.Polled()[fd], ready, revents)
      ensures Feed(w.base, ev) in Dispatch(ListAt(fd), ReadyEvents(revents))
        <==> ev != {} && w.base.active != 0 && w.fd == fd && ev == w.events * ready
    {
      var mask := table.Polled()[fd];
      hide TableOk, PendingQueues.Valid, Dispatch, ReadyEvents, AsksFor, Reports, Linked, NoRepeats, DirtyListed, Recorded;
      UnmarkedIsPolled(fd);
      Listed(fd);
      DispatchedExactly(ListAt(fd), ReadyEvents(revents), w.base, ev);
      if w.base.active != 0 && w.fd == fd {
        assert WatcherOk(lists, w);
        WantedByOne(w);
        WantedIsReady(mask, Wanted(fd), ready, revents, w.events);
        var k :| 0 <= k < |lists[fd]| && lists[fd][k] == w;
      }
      forall k | 0 <= k < |ListAt(fd)| && ListAt(fd)[k].base == w.base
        ensures ListAt(fd)[k] == w && w.base.active != 0 && w.fd == fd
      {
        OnlyItself(fd, w, k);
      }
    }

    lemma WantedIsReady(mask: Events, wanted: Events, ready: Events, revents: Events, events: Events)
      requires AsksFor(mask, wanted) && ready <= {EV_READ, EV_WRITE} && Reports(mask, ready, revents) && events * {EV_READ, EV_WRITE} <= wanted
      ensures events * ReadyEvents(revents) == events * ready
    {
      assert POLLERR in {POLLERR, POLLHUP, POLLNVAL} && POLLHUP in {POLLERR, POLLHUP, POLLNVAL};
      assert revents * {POLLIN, POLLERR, POLLHUP} == revents * {POLLIN} && revents * {POLLOUT, POLLERR, POLLHUP} == revents * {POLLOUT};
    }

    lemma WantedByOne(w: IoWatcher)
      requires w in known && w.base.active != 0
      ensures w.events * {EV_READ, EV_WRITE} <= Wanted(w.fd)
    {
    }

    /** An error or a hang-up counts as everything being ready. */
    lemma ErrorIsReady(revents: Events)
      requires POLLERR in revents || POLLHUP in revents
      ensures ReadyEvents(revents) == {EV_READ, EV_WRITE}
    {
      var bit := if POLLERR in revents then POLLERR else POLLHUP;
      assert bit in revents * {POLLOUT, POLLERR, POLLHUP} && bit in revents * {POLLIN, POLLERR, POLLHUP};
    }

    /** What poll found on one descriptor: a bad one is given up, any other event goes to the watchers that want it. */
    method PollOne(fd: nat, revents: Events)
      requires Valid() && fd < |anfds|
      modifies this`anfds, this`lists, this`fdchanges, known`next, (set w | w in known :: w.base)`active, pq`queues, pq`pendingPri, pq.watchers`pending
      ensures Valid()
      ensures POLLNVAL in revents ==> fd < |lists| && lists[fd] == []
      ensures POLLNVAL !in revents ==>
        && lists == old(lists) && fdchanges == old(fdchanges)
        && if fd in fdchanges then pq.queues == old(pq.queues) else Dispatched(old(pq.queues), ListAt(fd), ReadyEvents(revents))
    {
      hide Consistent, TableOk, PendingQueues.Valid, Dispatched, ReadyEvents;
      if POLLNVAL in revents {
        FdKill(fd);
      } else {
        Sized(fd);
        FdEvent(fd, ReadyEvents(revents));
      }
    }

    lemma Sized(fd: nat)
      requires Consistent() && fd < |anfds|
      ensures fd < |lists|
    {
    }

    /** The watcher is stopped, and will be called for an error and for reading and writing. */
    ghost predicate Killed(w: IoWatcher)
      reads w.base`active, w.base`pending, pq`queues
    {
      w.base.active == 0 && w.base.pending != 0 && pq.EventsFor(w.base) == {EV_ERROR, EV_READ, EV_WRITE}
    }

    /** Stops the first watcher of a bad descriptor and feeds it an error. */
    method KillFirst(fd: nat)
      requires Valid() && fd < |anfds| && anfds[fd].head != null && lists[fd] != []
      modifies this`anfds, this`lists, this`fdchanges, known`next, lists[fd][0].base`active, lists[fd][0].base`pending, pq`queues, pq`pendingPri
      ensures Valid() && fd < |anfds| && fd in fdchanges
      ensures forall d: nat :: ListAt(d) == if d == fd then old(lists[fd])[1..] else old(ListAt(d))
      ensures Killed(old(lists[fd])[0])
      ensures forall v :: v in known && v != old(lists[fd])[0] && old(Killed(v)) ==> Killed(v)
    {
      hide ListsOk, DirtyListed, Recorded, ToPoll, PendingQueues.Valid, PendingQueues.EventsFor, ApplyAction, NoRepeats;
      Listed(fd);
      var w := anfds[fd].head;
      BasesDiffer(w);
      IoStop(w);
      pq.FeedEvent(w.base, {EV_ERROR, EV_READ, EV_WRITE});
    }

    lemma BasesDiffer(w: IoWatcher)
      requires Consistent() && w in known
      ensures forall v :: v in known && v != w ==> v.base != w.base
    {
    }

    lemma FrontDiffers(list: seq<IoWatcher>, k: nat)
      requires NoRepeats(list) && k < |list|
      ensures forall i :: 0 <= i < k ==> list[i] != list[k]
      ensures list[k..][0] == list[k] && list[k..][1..] == list[k + 1..]
    {
    }

    /** Stops all watchers of a bad descriptor and feeds them an error. */
    method FdKill(fd: nat)
      requires Valid() && fd < |anfds|
      modifies this`anfds, this`lists, this`fdchanges, known`next, (set w | w in known :: w.base)`active, pq`queues, pq`pendingPri, pq.watchers`pending
      ensures Valid() && fd < |lists| && lists[fd] == []
      ensures forall d: nat :: d != fd ==> ListAt(d) == old(ListAt(d))
      ensures forall k :: 0 <= k < |old(lists[fd])| ==> Killed(old(lists[fd])[k])
      ensures old(lists[fd]) != [] ==> fd in fdchanges
    {
      hide Consistent, TableOk, PendingQueues.Valid, Killed, Linked, NoRepeats;
      Listed(fd);
      ghost var list, k := lists[fd], 0;
      assert list[0..] == list;
      while anfds[fd].head != null
        invariant Valid() && k <= |list| && fd < |anfds| && ListAt(fd) == list[k..]
        invariant forall d: nat :: d != fd ==> ListAt(d) == old(ListAt(d))
        invariant forall i :: 0 <= i < k ==> Killed(list[i])
        invariant k > 0 ==> fd in fdchanges
        decreases |list| - k
      {
        Listed(fd);
        FrontDiffers(list, k);
        KillFirst(fd);
        k := k + 1;
      }
      Listed(fd);
    }

    lemma Listed(fd: nat)
      requires Consistent() && (fd < |lists| || fd < |anfds|)
      ensures fd < |anfds| == |lists|
      ensures ListOk(fd, anfds[fd].head, lists[fd]) && Members(lists[fd]) <= known
      ensures anfds[fd].head == if lists[fd] == [] then null else lists[fd][0]
    {
    }
  }
}
