/** The timers of an event loop: a heap of the started ones, and what expiry feeds to the pending queues. */
module Timers {
  import opened Collections
  import opened Watchers
  import opened TimerHeap
  import opened Pending
  import Growth

  /** The bit of the event mask that a timer receives. */
  const EV_TIMER: nat := 8
  const TIMER_EVENT: Events := {EV_TIMER}

  /** Where a repeating timer that expired goes next: into the past never. */
  function Later(at: real, now: real): (r: real)
    ensures r >= now && r >= at && (r == now || r == at)
  {
    if at < now then now else at
  }

  /** The feeds of a list of watchers, the last one first. */
  function Feeds(ws: seq<Watcher>, revents: Events): (actions: seq<Action>)
    ensures |actions| == |ws|
    ensures forall i :: 0 <= i < |ws| ==> actions[i] == Feed(ws[|ws| - 1 - i], revents)
  {
    if ws == [] then [] else [Feed(ws[|ws| - 1], revents)] + Feeds(ws[..|ws| - 1], revents)
  }

  /** The watchers that one-shot timers among `ws` are cleared of when they are stopped. */
  ghost function Stops(ws: seq<Watcher>): (actions: seq<Action>)
    reads (set w | w in ws)`repeat
    ensures forall i :: 0 <= i < |actions| ==> actions[i].Clear? && actions[i].w in ws && actions[i].w.repeat == 0.0
  {
    if ws == [] then [] else
    var last := ws[|ws| - 1];
    Stops(ws[..|ws| - 1]) + if last.repeat == 0.0 then [Clear(last)] else []
  }

  /** The deadlines after the timers `fired` expired: repeating ones go on, the others are stopped. */
  ghost function After(live: map<Watcher, real>, fired: set<Watcher>, now: real): map<Watcher, real>
    reads fired`repeat
  {
    map w | w in live && (w in fired ==> w.repeat != 0.0) ::
      if w in fired then Later(live[w] + w.repeat, now) else live[w]
  }

  /** The timers were taken earliest first, each one once. */
  ghost predicate InOrder(fired: seq<Watcher>, live: map<Watcher, real>) {
    && (forall i :: 0 <= i < |fired| ==> fired[i] in live)
    && (forall i, j :: 0 <= i < j < |fired| ==> fired[i] != fired[j] && live[fired[i]] <= live[fired[j]])
  }

  /** None of the remaining timers is earlier than one that was taken. */
  ghost predicate TakenFirst(fired: seq<Watcher>, live: map<Watcher, real>)
    requires InOrder(fired, live)
  {
    forall i, w :: 0 <= i < |fired| && w in live && w !in fired ==> live[fired[i]] <= live[w]
  }

  /** Exactly the timers with a deadline before `now`. */
  ghost predicate AllExpired(fired: seq<Watcher>, live: map<Watcher, real>, now: real) {
    && (forall i :: 0 <= i < |fired| ==> fired[i] in live && live[fired[i]] < now)
    && (forall w :: w in live && live[w] < now ==> w in fired)
  }

  class TimerLoop {
    const pq: PendingQueues
    var timers: array<Entry>
    var timerCnt: nat
    /** The loop's idea of the current time. */
    var now: real
    /** Watchers to feed, the last one first. */
    var rfeeds: seq<Watcher>
    /** The timers that belong to this loop, started or not. */
    ghost var known: set<Watcher>

    function End(): nat
      reads this`timerCnt
    {
      timerCnt + HEAP0
    }

    ghost predicate SlotOk(i: nat)
      requires i < timers.Length
      reads this`timers, this`known, timers, known`at
    {
      timers[i].w in known && timers[i].at == timers[i].w.at
    }

    /** A started timer has a slot in the heap. */
    ghost predicate HasSlot(w: Watcher)
      requires End() <= timers.Length
      reads this`timers, this`timerCnt, timers, w`active
    {
      w.active != 0 ==> InHeap(w.active, End()) && timers[w.active].w == w
    }

    ghost predicate HeapOk()
      reads this`timers, this`timerCnt, this`known, timers, known`at
    {
      && End() <= timers.Length
      && Ordered(timers[..], End())
      && (forall i :: InHeap(i, End()) ==> SlotOk(i))
    }

    ghost predicate HeapValid()
      reads this`timers, this`timerCnt, this`known, timers, known`at, known`active
    {
      && HeapOk()
      && (forall i :: InHeap(i, End()) ==> timers[i].w.active == i)
      && (forall w :: w in known ==> HasSlot(w))
    }

    ghost predicate Valid()
      reads this, timers, known`at, known`active, pq`queues, pq`watchers, pq.watchers`pending
    {
      HeapValid() && pq.Valid() && known <= pq.watchers
    }

    /** The deadlines of the started timers: what the heap stands for. */
    ghost function Live(): map<Watcher, real>
      reads this`known, known`at, known`active
    {
      map w | w in known && w.active != 0 :: w.at
    }

    constructor (pq: PendingQueues, now: real)
      requires pq.Valid()
      ensures Valid() && this.pq == pq && this.now == now && known == {} && timerCnt == 0 && rfeeds == [] && fresh(timers)
    {
      this.pq, this.now, timerCnt, rfeeds, known := pq, now, 0, [], {};
      timers := new Entry[HEAP0](_ => Entry(0.0, pq.dummy));
    }

    /** A stopped timer becomes one of this loop's. */
    method AddTimer(w: Watcher)
      requires Valid() && w != pq.dummy && w.priority < NUMPRI && w.active == 0 && w.pending == 0
      modifies this`known, pq`watchers
      ensures Valid() && known == old(known) + {w} && pq.watchers == old(pq.watchers) + {w} && Live() == old(Live())
    {
      hide PendingQueues.Valid, Ordered;
      pq.AddWatcher(w);
      known := known + {w};
      forall i | InHeap(i, End())
        ensures SlotOk(i)
      {
        assert old(SlotOk(i));
      }
      forall v | v in known
        ensures HasSlot(v)
      {
        assert v != w ==> old(HasSlot(v));
      }
    }

    /** The heap holds exactly the started timers, each once. */
    lemma HeapIsLive()
      requires HeapValid()
      ensures Agree(Contents(timers[..], End()), Live()) && Distinct(timers[..], End())
    {
      hide Contents, Ordered;
      forall w | w in known && w.active != 0
        ensures w in WatchersOf(timers, End())
      {
        assert HasSlot(w);
        EntryIsIn(timers[..], End(), w.active);
      }
      forall e | e in Contents(timers[..], End())
        ensures e.w in known && e.at == e.w.at && e.w.active != 0
      {
        var i := EntryHasSlot(timers[..], End(), e);
        assert SlotOk(i);
      }
    }

    /** An ordered heap with right slot numbers is valid for the timers it contains, if no other one is started. */
    lemma HeapRestored(live: map<Watcher, real>)
      requires End() <= timers.Length && Ordered(timers[..], End()) && Indexed(timers, End())
      requires Agree(Contents(timers[..], End()), live)
      requires forall w :: w in live ==> w in known && live[w] == w.at
      requires forall w :: w in known && w !in live ==> w.active == 0
      ensures HeapValid() && Live() == live
    {
      hide Contents, Ordered;
      forall i | InHeap(i, End())
        ensures SlotOk(i)
      {
        EntryIsIn(timers[..], End(), i);
      }
      forall w | w in live
        ensures w.active != 0 && HasSlot(w)
      {
        var e :| e in Contents(timers[..], End()) && e.w == w;
        var i := EntryHasSlot(timers[..], End(), e);
        assert timers[i].w == w;
      }
    }

    /** Makes room for `cnt` array slots. */
    method NeedSize(cnt: nat)
      modifies this`timers
      ensures cnt <= timers.Length && old(timers.Length) <= timers.Length
      ensures timers == old(timers) || fresh(timers)
      ensures timers[..old(timers.Length)] == old(timers[..])
    {
      if cnt > timers.Length {
        var size, _ := Growth.NextSize(16, timers.Length, cnt, Growth.ADDRESS_SIZE);
        var bigger := new Entry[size](i requires i >= 0 reads this, timers => if i < timers.Length then timers[i] else Entry(0.0, pq.dummy));
        timers := bigger;
      }
    }

    /** Puts an entry behind the last one and moves it to where it belongs. */
    method Insert(w: Watcher, ghost live: map<Watcher, real>)
      requires End() <= timers.Length && Ordered(timers[..], End()) && Indexed(timers, End())
      requires Agree(Contents(timers[..], End()), live) && live.Keys <= known
      requires w in known && w !in live && w.active == End()
      modifies this`timers, this`timerCnt, timers, known`active
      ensures timerCnt == old(timerCnt) + 1 && (timers == old(timers) || fresh(timers))
      ensures End() <= timers.Length && Ordered(timers[..], End()) && Indexed(timers, End())
      ensures Agree(Contents(timers[..], End()), live[w := w.at])
      ensures forall v :: v in known && v !in live && v != w ==> v.active == old(v.active)
    {
      hide Ordered, OrderedBut, Bridged, Contents, WatchersIn, Agree;
      ghost var end, before, entries := End(), timers[..], Contents(timers[..], End());
      timerCnt := timerCnt + 1;
      NeedSize(w.active + 1);
      timers[w.active] := Entry(w.at, w);
      SamePrefix(before, timers[..], end);
      GrowContents(timers[..], end);
      AgreeAfterAdd(entries, live, Entry(w.at, w));
      AppendLeaf(timers[..], end);
      forall i | InHeap(i, end)
        ensures timers[i].w != w && timers[i].w.active == i
      {
        assert timers[i] == before[i];
        EntryIsIn(before, end, i);
      }
      AgreeingWatchers(Contents(timers[..], End()), live[w := w.at]);
      UpHeap(timers, End(), w.active);
    }

    method TimerStart(w: Watcher)
      requires Valid() && w in known && w.repeat >= 0.0
      modifies this`timers, this`timerCnt, timers, known`active, w`at
      ensures Valid() && (timers == old(timers) || fresh(timers))
      ensures Live() == if old(w.active) != 0 then old(Live()) else old(Live())[w := old(w.at) + now]
    {
      hide Ordered, Contents, WatchersIn;
      if w.active != 0 {
        return;
      }
      ghost var live := Live();
      HeapIsLive();
      w.at := w.at + now;
      w.active := End();
      Insert(w, live);
      HeapRestored(live[w := w.at]);
    }

    /** Takes a started timer out of the heap. */
    method TakeOut(w: Watcher)
      requires HeapValid() && w in known && w.active != 0
      modifies this`timerCnt, timers, known`active
      ensures timerCnt == old(timerCnt) - 1 && End() <= timers.Length
      ensures Ordered(timers[..], End()) && Indexed(timers, End())
      ensures Agree(Contents(timers[..], End()), old(Live()) - {w})
      ensures forall v :: v in known && v !in old(Live()) ==> v.active == old(v.active)
    {
      hide Ordered, Contents, WatchersIn, Loose, Agree;
      HeapIsLive();
      ghost var end, before, live := End(), timers[..], Live();
      var active := w.active;
      AgreeAfterRemove(before, end, active, live);
      AgreeingWatchers(Contents(Without(before, end, active), end - 1), live - {w});
      timerCnt := timerCnt - 1;
      OrderedPart(before, end - 1, end);
      if active < End() {
        timers[active] := timers[End()];
        assert timers[..] == Without(before, end, active);
        LooseAfterChange(before, end - 1, active, before[end - 1]);
        AdjustHeap(timers, timerCnt, active);
      }
    }

    /** Stops a started timer, whose time is then relative again. */
    method Stop(w: Watcher)
      requires HeapValid() && w in known && w.active != 0
      modifies this`timerCnt, timers, known`active, w`at
      ensures HeapValid() && Live() == old(Live()) - {w}
      ensures w.active == 0 && w.at == old(w.at) - now
    {
      hide Ordered, Contents, WatchersIn, Agree;
      ghost var live := Live();
      TakeOut(w);
      AgreeingWatchers(Contents(timers[..], End()), live - {w});
      forall i | InHeap(i, End())
        ensures timers[i].w != w
      {
        EntryIsIn(timers[..], End(), i);
      }
      w.at := w.at - now;
      w.active := 0;
      HeapRestored(live - {w});
    }

    /** Stops a timer; it is not called for events it has pending. */
    method TimerStop(w: Watcher)
      requires Valid() && w in known
      modifies this`timerCnt, timers, known`active, w`at, pq`queues, w`pending
      ensures Valid() && Live() == old(Live()) - {w}
      ensures pq.queues == ApplyAction(old(pq.queues), Clear(w), pq.dummy)
      ensures old(w.pending) == 0 ==> pq.queues == old(pq.queues)
      ensures w.active == 0 && w.pending == 0
      ensures w.at == if old(w.active) != 0 then old(w.at) - now else old(w.at)
    {
      hide HeapValid, ApplyAction, PendingQueues.Valid, PendingQueues.EventsFor, PendingQueues.OthersKept;
      var revents := pq.ClearPending(w);
      if w.active == 0 {
        return;
      }
      Stop(w);
    }

    /** The heap with a new deadline for the timer of slot k: heap order may fail around that slot only. */
    lemma Rescheduled(w: Watcher, at: real)
      requires HeapValid() && w in known && w.active != 0
      ensures var s := timers[..][w.active := Entry(at, w)];
        && Loose(s, End(), w.active)
        && Agree(Contents(s, End()), Live()[w := at])
        && WatchersIn(Contents(s, End())) == Live().Keys <= known
    {
      hide Ordered, Contents, WatchersIn, Loose, Agree;
      HeapIsLive();
      AgreeAfterReplace(timers[..], End(), w.active, at, Live());
      LooseAfterChange(timers[..], End(), w.active, Entry(at, w));
      AgreeingWatchers(Contents(timers[..][w.active := Entry(at, w)], End()), Live()[w := at]);
    }

    /** Sets a new deadline of a started timer. */
    method Reschedule(w: Watcher, at: real)
      requires HeapValid() && w in known && w.active != 0
      modifies timers, known`active, w`at
      ensures HeapValid() && Live() == old(Live())[w := at]
    {
      hide Ordered, Contents, WatchersIn, Loose, Agree;
      ghost var live, before := Live(), timers[..];
      Rescheduled(w, at);
      HeapIsLive();
      w.at := at;
      timers[w.active] := Entry(w.at, w);
      assert timers[..] == before[old(w.active) := Entry(at, w)];
      AdjustHeap(timers, timerCnt, w.active);
      HeapRestored(live[w := at]);
    }

    /** A stopped timer may be given any time. */
    method SetTime(w: Watcher, at: real)
      requires HeapValid() && w in known && w.active == 0
      modifies w`at
      ensures HeapValid() && Live() == old(Live()) && w.at == at
    {
      w.at := at;
      forall i | InHeap(i, End())
        ensures SlotOk(i)
      {
        assert old(SlotOk(i));
      }
    }

    /** Puts a repeating timer off, counted from now, and stops one that does not repeat. */
    method TimerAgain(w: Watcher)
      requires Valid() && w in known && w.repeat >= 0.0
      modifies this`timers, this`timerCnt, timers, known`active, w`at, pq`queues, w`pending
      ensures Valid() && (timers == old(timers) || fresh(timers))
      ensures Live() == if w.repeat != 0.0 then old(Live())[w := now + w.repeat] else old(Live()) - {w}
      ensures pq.queues == ApplyAction(old(pq.queues), Clear(w), pq.dummy) && w.pending == 0
    {
      hide HeapValid, ApplyAction, PendingQueues.Valid, PendingQueues.EventsFor, PendingQueues.OthersKept;
      var revents := pq.ClearPending(w);
      if w.active != 0 {
        if w.repeat != 0.0 {
          Reschedule(w, now + w.repeat);
        } else {
          TimerStop(w);
        }
      } else if w.repeat != 0.0 {
        SetTime(w, w.repeat);
        TimerStart(w);
      }
    }

    lemma RootFirst()
      requires HeapValid() && timerCnt > 0
      ensures HEAP0 < timers.Length
      ensures var w := timers[HEAP0].w;
        && w in known && w.active == HEAP0 && w in Live() && timers[HEAP0].at == Live()[w]
        && forall v :: v in Live() ==> Live()[w] <= Live()[v]
    {
      assert SlotOk(HEAP0);
      forall v | v in Live()
        ensures timers[HEAP0].at <= Live()[v]
      {
        assert HasSlot(v) && SlotOk(v.active);
        RootIsEarliest(timers[..], End(), v.active);
      }
    }

    lemma InBounds()
      requires HeapValid()
      ensures End() <= timers.Length
    {
    }

    lemma HeapEmpty()
      requires HeapValid() && timerCnt == 0
      ensures Live() == map[]
    {
      forall v | v in known
        ensures v.active == 0
      {
        assert HasSlot(v);
      }
    }

    /** Puts the earliest timer off. */
    method PutOffRoot(w: Watcher, at: real)
      requires HeapValid() && w in known && w.active == HEAP0
      modifies timers, known`active, w`at
      ensures HeapValid() && Live() == old(Live())[w := at]
    {
      hide Ordered, OrderedAbove, Bridged, Contents, WatchersIn, Loose, Agree;
      ghost var live, before := Live(), timers[..];
      Rescheduled(w, at);
      HeapIsLive();
      w.at := at;
      timers[HEAP0] := Entry(w.at, w);
      assert timers[..] == before[HEAP0 := Entry(at, w)];
      LooseOneWay(timers[..], End(), HEAP0);
      DownHeap(timers, timerCnt, HEAP0);
      HeapRestored(live[w := at]);
    }

    ghost predicate RepeatsOk()
      reads this`known, known`repeat
    {
      forall w :: w in known ==> w.repeat >= 0.0
    }

    /** Puts the earliest timer off, or stops it. */
    method ExpireRoot() returns (w: Watcher)
      requires Valid() && RepeatsOk()
      requires timerCnt > 0 && timers[HEAP0].at < now
      modifies this`timerCnt, timers, known`active, known`at, pq`queues, known`pending
      ensures Valid() && |pq.queues| == NUMPRI && w.priority < NUMPRI
      ensures w in old(Live()) && old(Live())[w] < now
      ensures forall v :: v in old(Live()) ==> old(Live())[w] <= old(Live())[v]
      ensures Live() == if w.repeat != 0.0 then old(Live())[w := Later(old(Live())[w] + w.repeat, now)] else old(Live()) - {w}
      ensures pq.queues == if w.repeat != 0.0 then old(pq.queues) else ApplyAction(old(pq.queues), Clear(w), pq.dummy)
      ensures forall v :: v in known && v != w ==> v.at == old(v.at)
    {
      hide HeapValid, ApplyAction, PendingQueues.SlotOk;
      RootFirst();
      w := timers[HEAP0].w;
      if w.repeat != 0.0 {
        assert w.repeat > 0.0;
        var at := w.at + w.repeat;
        if at < now {
          at := now;
        }
        PutOffRoot(w, at);
      } else {
        TimerStop(w);
      }
    }

    method FeedReverse(w: Watcher)
      modifies this`rfeeds
      ensures rfeeds == old(rfeeds) + [w]
    {
      rfeeds := rfeeds + [w];
    }

    method FeedReverseDone(revents: Events)
      requires pq.Valid() && rfeeds != [] && forall i :: 0 <= i < |rfeeds| ==> rfeeds[i] in pq.watchers && rfeeds[i].priority < NUMPRI
      modifies this`rfeeds, pq`queues, pq`pendingPri, (set w | w in rfeeds)`pending
      ensures pq.Valid() && rfeeds == []
      ensures pq.queues == ApplyActions(old(pq.queues), Feeds(old(rfeeds), revents), pq.dummy)
    {
      hide PendingQueues.SlotOk, PendingQueues.WatcherOk, PendingQueues.EventsFor, PendingQueues.OthersKept;
      ghost var start, all := pq.queues, rfeeds;
      while rfeeds != []
        invariant pq.Valid() && rfeeds <= all
        invariant ApplyActions(pq.queues, Feeds(rfeeds, revents), pq.dummy) == ApplyActions(start, Feeds(all, revents), pq.dummy)
        decreases |rfeeds|
      {
        var w := rfeeds[|rfeeds| - 1];
        rfeeds := rfeeds[..|rfeeds| - 1];
        pq.FeedEvent(w, revents);
      }
    }

    /** A timer that is due has not expired before. */
    lemma DueIsNew(start: map<Watcher, real>, fired: seq<Watcher>, w: Watcher)
      requires InOrder(fired, start)
      requires var live := After(start, Members(fired), now); w in live && live[w] < now
      ensures w in start && w !in fired && start[w] == After(start, Members(fired), now)[w]
    {
    }

    lemma StillInOrder(start: map<Watcher, real>, fired: seq<Watcher>, w: Watcher)
      requires InOrder(fired, start) && TakenFirst(fired, start)
      requires var live := After(start, Members(fired), now); w in live && live[w] < now && forall v :: v in live ==> live[w] <= live[v]
      ensures InOrder(fired + [w], start) && TakenFirst(fired + [w], start)
    {
      var live, more := After(start, Members(fired), now), fired + [w];
      DueIsNew(start, fired, w);
      forall v | v in start && v !in fired
        ensures start[w] <= start[v]
      {
        assert v in live && live[v] == start[v];
      }
      forall i, j | 0 <= i < j < |more|
        ensures more[i] != more[j] && start[more[i]] <= start[more[j]]
      {
        if j == |fired| {
          assert more[i] == fired[i] && more[j] == w;
        }
      }
      forall i, v | 0 <= i < |more| && v in start && v !in more
        ensures start[more[i]] <= start[v]
      {
        assert v !in fired;
        if i < |fired| {
          assert more[i] == fired[i];
        }
      }
    }

    lemma AfterOneMore(start: map<Watcher, real>, fired: seq<Watcher>, w: Watcher)
      requires InOrder(fired, start)
      requires var live := After(start, Members(fired), now); w in live && live[w] < now
      ensures var live := After(start, Members(fired), now);
        After(start, Members(fired + [w]), now) == if w.repeat != 0.0 then live[w := Later(live[w] + w.repeat, now)] else live - {w}
    {
      DueIsNew(start, fired, w);
      assert Members(fired + [w]) == Members(fired) + {w};
    }

    /** What the stops of the one-shot timers among `fired` did to the pending queues. */
    ghost predicate Stopped(before: Queues, fired: seq<Watcher>)
      requires |before| == NUMPRI
      reads pq`queues, Members(fired)`repeat
    {
      && (forall w :: w in fired ==> w.priority < NUMPRI)
      && pq.queues == ApplyActions(before, Stops(fired), pq.dummy)
    }

    /** What the expiry of the timers `fired` did to the pending queues. */
    ghost predicate Expired(before: Queues, fired: seq<Watcher>)
      requires |before| == NUMPRI
      reads pq`queues, Members(fired)`repeat
    {
      && (forall w :: w in fired ==> w.priority < NUMPRI)
      && pq.queues == ApplyActions(ApplyActions(before, Stops(fired), pq.dummy), Feeds(fired, TIMER_EVENT), pq.dummy)
    }

    /**
     * What holds while expired timers are taken: the started ones are those of `start` after
     * `fired` expired, which are the earliest ones, in order.
     */
    ghost predicate Progress(start: map<Watcher, real>, before: Queues, fired: seq<Watcher>)
      requires |before| == NUMPRI
      reads this, known`at, known`active, Members(fired)`repeat, pq`queues
    {
      && rfeeds == fired && Members(fired) <= known
      && InOrder(fired, start) && TakenFirst(fired, start)
      && (forall i :: 0 <= i < |fired| ==> start[fired[i]] < now)
      && Live() == After(start, Members(fired), now)
      && Stopped(before, fired)
    }

    lemma NoneTaken()
      requires |pq.queues| == NUMPRI && rfeeds == []
      ensures Progress(Live(), pq.queues, []) && Expired(pq.queues, [])
    {
      assert After(Live(), Members([]), now) == Live();
    }

    /** Once the earliest timer is not due, none is, and all that were due have been taken. */
    lemma AllTaken(start: map<Watcher, real>, before: Queues, fired: seq<Watcher>)
      requires HeapValid() && (timerCnt == 0 || timers[HEAP0].at >= now)
      requires |before| == NUMPRI && Progress(start, before, fired)
      ensures forall w :: w in Live() ==> Live()[w] >= now
      ensures AllExpired(fired, start, now) && InOrder(fired, start)
      ensures Live() == After(start, Members(fired), now)
    {
      if timerCnt == 0 {
        HeapEmpty();
      } else {
        RootFirst();
      }
      forall w | w in start && w !in fired
        ensures start[w] >= now
      {
        assert w in Live();
      }
    }

    lemma StopOneMore(before: Queues, fired: seq<Watcher>, w: Watcher)
      requires |before| == NUMPRI && w.priority < NUMPRI && forall v :: v in fired ==> v.priority < NUMPRI
      ensures ApplyActions(before, Stops(fired + [w]), pq.dummy)
        == if w.repeat != 0.0 then ApplyActions(before, Stops(fired), pq.dummy)
           else ApplyAction(ApplyActions(before, Stops(fired), pq.dummy), Clear(w), pq.dummy)
    {
      assert (fired + [w])[..|fired|] == fired;
      if w.repeat == 0.0 {
        ApplyActionsAppend(before, Stops(fired), Clear(w), pq.dummy);
      } else {
        assert Stops(fired) + [] == Stops(fired);
      }
    }

    /** Takes the earliest timer, which is due. */
    method TakeRoot(ghost start: map<Watcher, real>, ghost before: Queues, ghost fired: seq<Watcher>) returns (ghost w: Watcher)
      requires Valid() && RepeatsOk() && timerCnt > 0 && timers[HEAP0].at < now
      requires |before| == NUMPRI && Progress(start, before, fired)
      modifies this`timerCnt, this`rfeeds, timers, known`active, known`at, pq`queues, known`pending
      ensures Valid() && End() <= timers.Length
      ensures Progress(start, before, fired + [w]) && w !in fired && w in start
    {
      hide HeapValid, ApplyActions, ApplyAction, PendingQueues.Valid, After, InOrder, TakenFirst, Stops;
      ghost var live, queues := Live(), pq.queues;
      var root := ExpireRoot();
      w := root;
      FeedReverse(root);
      InBounds();
      OneMoreTaken(start, before, fired, w, live, queues);
    }

    lemma AllKnown(start: map<Watcher, real>, fired: seq<Watcher>)
      requires InOrder(fired, start)
      ensures forall i :: 0 <= i < |fired| ==> fired[i] in start
    {
    }

    /** From what one expiry does to the timers and the queues to what all of them did. */
    lemma OneMoreTaken(start: map<Watcher, real>, before: Queues, fired: seq<Watcher>, w: Watcher, live: map<Watcher, real>, queues: Queues)
      requires |before| == NUMPRI && |queues| == NUMPRI && w.priority < NUMPRI && w in known
      requires InOrder(fired, start) && TakenFirst(fired, start) && Members(fired) <= known && rfeeds == fired + [w]
      requires forall i :: 0 <= i < |fired| ==> start[fired[i]] < now
      requires live == After(start, Members(fired), now) && w in live && live[w] < now && forall v :: v in live ==> live[w] <= live[v]
      requires Live() == if w.repeat != 0.0 then live[w := Later(live[w] + w.repeat, now)] else live - {w}
      requires (forall v :: v in fired ==> v.priority < NUMPRI) && queues == ApplyActions(before, Stops(fired), pq.dummy)
      requires pq.queues == if w.repeat != 0.0 then queues else ApplyAction(queues, Clear(w), pq.dummy)
      ensures Progress(start, before, fired + [w]) && w !in fired && w in start
    {
      hide ApplyActions, ApplyAction, After, InOrder, TakenFirst, Stops;
      DueIsNew(start, fired, w);
      StillInOrder(start, fired, w);
      AllKnown(start, fired + [w]);
      AfterOneMore(start, fired, w);
      StopOneMore(before, fired, w);
    }

    /** Takes all timers that are due, of which there is one. */
    method TakeExpired() returns (ghost fired: seq<Watcher>)
      requires Valid() && RepeatsOk() && rfeeds == [] && timerCnt > 0 && timers[HEAP0].at < now
      modifies this`timerCnt, this`rfeeds, timers, known`active, known`at, known`pending, pq`queues
      ensures Valid() && fired != [] && (timerCnt == 0 || timers[HEAP0].at >= now)
      ensures Progress(old(Live()), old(pq.queues), fired)
    {
      hide HeapValid, PendingQueues.SlotOk, Progress;
      ghost var start, queues := Live(), pq.queues;
      InBounds();
      NoneTaken();
      fired := [];
      while timerCnt > 0 && timers[HEAP0].at < now
        invariant Valid() && End() <= timers.Length
        invariant fired == [] ==> timerCnt > 0 && timers[HEAP0].at < now
        invariant Progress(start, queues, fired)
        decreases start.Keys - Members(fired)
      {
        ghost var w := TakeRoot(start, queues, fired);
        assert w in start.Keys - Members(fired);
        fired := fired + [w];
      }
    }

    /** Makes the expired timers pending. */
    method TimersReify() returns (ghost fired: seq<Watcher>)
      requires Valid() && RepeatsOk() && rfeeds == []
      modifies this`timerCnt, this`rfeeds, timers, known`active, known`at, known`pending, pq`queues, pq`pendingPri
      ensures Valid() && rfeeds == []
      ensures InOrder(fired, old(Live())) && AllExpired(fired, old(Live()), now)
      ensures Live() == After(old(Live()), Members(fired), now)
      ensures forall w :: w in Live() ==> Live()[w] >= now
      ensures Expired(old(pq.queues), fired)
    {
      hide HeapValid, PendingQueues.SlotOk, PendingQueues.WatcherOk, After, InOrder, AllExpired, TakenFirst, Stops, Feeds, ApplyActions;
      fired := [];
      NoneTaken();
      InBounds();
      if timerCnt > 0 && timers[HEAP0].at < now {
        fired := TakeExpired();
        AllTaken(old(Live()), old(pq.queues), fired);
        FeedReverseDone(TIMER_EVENT);
      } else {
        AllTaken(Live(), pq.queues, fired);
      }
    }
  }
}
