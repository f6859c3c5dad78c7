/**
 * In which order the callbacks of expired timers run: expired timers are fed in reverse, and a
 * stack calls its top first, so among timers of one priority the earlier deadline comes first.
 */
module FiringOrder {
  import opened Watchers
  import opened Pending
  import opened PendingModel
  import opened Timers

  predicate NeverCleared(callbacks: seq<seq<Action>>, w: Watcher) {
    forall i, j :: 0 <= i < |callbacks| && 0 <= j < |callbacks[i]| ==> callbacks[i][j] != Clear(w)
  }

  /** A call of `w` for at least these events; the calls before it are of other watchers. */
  ghost predicate FirstCallAt(log: seq<Call>, b: int, w: Watcher, events: Events) {
    0 <= b < |log| && log[b].w == w && events <= log[b].events && forall k :: 0 <= k < b ==> log[k].w != w
  }

  ghost predicate Called(log: seq<Call>, w: Watcher, events: Events) {
    exists b :: FirstCallAt(log, b, w, events)
  }

  /** Both watchers are called, `v` for the first time before `u`. */
  ghost predicate CalledBefore(log: seq<Call>, v: Watcher, u: Watcher, events: Events) {
    exists a, b :: a < b && FirstCallAt(log, a, v, events) && FirstCallAt(log, b, u, events)
  }

  /** Slot `i` of stack `p` holds a watcher, for at least these events. */
  predicate Holds(qs: Queues, p: nat, i: nat, w: Watcher, events: Events) {
    p < |qs| && i < |qs[p]| && qs[p][i].w == w && events <= qs[p][i].events
  }

  /** A watcher stays in its slot while it is not cleared. */
  lemma {:induction false} SlotStays(qs: Queues, actions: seq<Action>, dummy: Watcher, p: nat, i: nat, w: Watcher, events: Events)
    requires |qs| == NUMPRI && Holds(qs, p, i, w, events)
    requires forall k :: 0 <= k < |actions| ==> actions[k].w.priority < NUMPRI && actions[k] != Clear(w)
    ensures Holds(ApplyActions(qs, actions, dummy), p, i, w, events)
    decreases |actions|
  {
    if actions != [] {
      SlotStays(ApplyAction(qs, actions[0], dummy), actions[1..], dummy, p, i, w, events);
    }
  }

  /** The callbacks left after one call. */
  function Rest(callbacks: seq<seq<Action>>): seq<seq<Action>> {
    if callbacks == [] then [] else callbacks[1..]
  }

  /** What the callbacks of a log may do. */
  ghost predicate Callbacks(callbacks: seq<seq<Action>>, dummy: Watcher) {
    CallbacksOk(callbacks) && forall k :: 0 <= k < |callbacks| ==> NotOn(callbacks[k], dummy)
  }

  /** The queues after the top slot of the highest priority was popped and called. */
  function AfterCall(qs: Queues, h: nat, dummy: Watcher, callbacks: seq<seq<Action>>): Queues
    requires |qs| == NUMPRI && h < NUMPRI && qs[h] != [] && CallbacksOk(callbacks)
  {
    if callbacks == [] then Pop(qs, h) else ApplyActions(Pop(qs, h), callbacks[0], dummy)
  }

  /** One round that calls a watcher. */
  lemma CallRound(qs: Queues, h: nat, dummy: Watcher, mask: Mask, callbacks: seq<seq<Action>>) returns (mask': Mask)
    requires |qs| == NUMPRI && Represents(qs, dummy, mask) && Callbacks(callbacks, dummy)
    requires h < NUMPRI && h == Highest(qs, NUMPRI) && qs[h][|qs[h]| - 1].w != dummy
    ensures var slot, next := qs[h][|qs[h]| - 1], AfterCall(qs, h, dummy, callbacks);
      && Represents(next, dummy, mask') && |next| == NUMPRI && Callbacks(Rest(callbacks), dummy)
      && Drain(qs, dummy, callbacks) == [Call(slot.w, slot.events)] + Drain(next, dummy, Rest(callbacks))
      && (callbacks == [] ==> Total(next, NUMPRI) < Total(qs, NUMPRI))
  {
    hide Represents, ApplyActions, Total;
    DrainTop(qs, h, dummy, callbacks);
    PopRefines(qs, dummy, mask, h);
    mask' := mask - {qs[h][|qs[h]| - 1].w};
    if callbacks != [] {
      ActionsRefine(Pop(qs, h), dummy, mask', callbacks[0]);
      mask' := ModelActions(mask', callbacks[0]);
    }
  }

  /** One round that pops a dummy slot. */
  lemma DummyRound(qs: Queues, h: nat, dummy: Watcher, mask: Mask, callbacks: seq<seq<Action>>)
    requires |qs| == NUMPRI && Represents(qs, dummy, mask) && Callbacks(callbacks, dummy)
    requires h < NUMPRI && h == Highest(qs, NUMPRI) && qs[h][|qs[h]| - 1].w == dummy
    ensures |Pop(qs, h)| == NUMPRI && Represents(Pop(qs, h), dummy, mask) && Total(Pop(qs, h), NUMPRI) < Total(qs, NUMPRI)
    ensures Drain(qs, dummy, callbacks) == Drain(Pop(qs, h), dummy, callbacks)
  {
    hide Represents, ApplyActions, Total;
    DrainTop(qs, h, dummy, callbacks);
    PopRefines(qs, dummy, mask, h);
  }

  /** A round leaves a watcher in its slot unless it is called or cleared. */
  lemma SlotStaysInRound(qs: Queues, h: nat, dummy: Watcher, callbacks: seq<seq<Action>>, p: nat, i: nat, w: Watcher, events: Events)
    requires |qs| == NUMPRI && h < NUMPRI && qs[h] != [] && Holds(qs, p, i, w, events) && qs[h][|qs[h]| - 1].w != w
    requires CallbacksOk(callbacks) && NeverCleared(callbacks, w)
    ensures Holds(Pop(qs, h), p, i, w, events) && Holds(AfterCall(qs, h, dummy, callbacks), p, i, w, events)
    ensures NeverCleared(Rest(callbacks), w)
  {
    hide ApplyActions;
    if callbacks != [] {
      SlotStays(Pop(qs, h), callbacks[0], dummy, p, i, w, events);
    }
  }

  lemma LaterCall(log: seq<Call>, c: Call, w: Watcher, events: Events)
    requires Called(log, w, events) && c.w != w
    ensures Called([c] + log, w, events)
  {
    var b :| FirstCallAt(log, b, w, events);
    assert FirstCallAt([c] + log, b + 1, w, events);
  }

  /** A watcher on a stack is called in the end, whatever the callbacks feed. */
  lemma {:induction false} IsCalled(qs: Queues, dummy: Watcher, mask: Mask, callbacks: seq<seq<Action>>, p: nat, i: nat, w: Watcher, events: Events)
    requires |qs| == NUMPRI && Represents(qs, dummy, mask) && Holds(qs, p, i, w, events) && w != dummy
    requires Callbacks(callbacks, dummy) && NeverCleared(callbacks, w)
    ensures Called(Drain(qs, dummy, callbacks), w, events)
    decreases |callbacks|, Total(qs, NUMPRI)
  {
    hide Represents, ApplyActions, Total, Drain, Pop, AfterCall, NeverCleared, NotOn;
    var h := Highest(qs, NUMPRI);
    var slot := qs[h][|qs[h]| - 1];
    if slot.w == dummy {
      DummyRound(qs, h, dummy, mask, callbacks);
      SlotStaysInRound(qs, h, dummy, callbacks, p, i, w, events);
      IsCalled(Pop(qs, h), dummy, mask, callbacks, p, i, w, events);
    } else {
      var mask' := CallRound(qs, h, dummy, mask, callbacks);
      if slot.w == w {
        SameSlot(qs, dummy, mask, p, i, h, |qs[h]| - 1);
        assert FirstCallAt(Drain(qs, dummy, callbacks), 0, w, events);
      } else {
        var next := AfterCall(qs, h, dummy, callbacks);
        SlotStaysInRound(qs, h, dummy, callbacks, p, i, w, events);
        IsCalled(next, dummy, mask', Rest(callbacks), p, i, w, events);
        LaterCall(Drain(next, dummy, Rest(callbacks)), Call(slot.w, slot.events), w, events);
      }
    }
  }

  /** A watcher has one slot. */
  lemma SameSlot(qs: Queues, dummy: Watcher, mask: Mask, p: nat, i: nat, q: nat, j: nat)
    requires Represents(qs, dummy, mask)
    requires p < NUMPRI && q < NUMPRI && i < |qs[p]| && j < |qs[q]| && qs[p][i].w == qs[q][j].w != dummy
    ensures p == q && i == j
  {
    assert qs[p][i].w.priority == p && qs[q][j].w.priority == q;
  }

  lemma CalledFirst(log: seq<Call>, c: Call, v: Watcher, u: Watcher, events: Events)
    requires Called(log, u, events) && c.w == v != u && events <= c.events
    ensures CalledBefore([c] + log, v, u, events)
  {
    var b :| FirstCallAt(log, b, u, events);
    assert FirstCallAt([c] + log, b + 1, u, events);
    assert FirstCallAt([c] + log, 0, v, events);
  }

  lemma CalledLater(log: seq<Call>, c: Call, v: Watcher, u: Watcher, events: Events)
    requires CalledBefore(log, v, u, events) && c.w != v && c.w != u
    ensures CalledBefore([c] + log, v, u, events)
  {
    var a, b :| a < b && FirstCallAt(log, a, v, events) && FirstCallAt(log, b, u, events);
    assert FirstCallAt([c] + log, a + 1, v, events);
    assert FirstCallAt([c] + log, b + 1, u, events);
  }

  /** Of two watchers on one stack, the upper one is called first, whatever the callbacks feed. */
  lemma {:induction false} UpperFirst(qs: Queues, dummy: Watcher, mask: Mask, callbacks: seq<seq<Action>>,
      p: nat, i: nat, u: Watcher, j: nat, v: Watcher, events: Events)
    requires |qs| == NUMPRI && Represents(qs, dummy, mask)
    requires i < j && Holds(qs, p, i, u, events) && Holds(qs, p, j, v, events) && u != dummy && v != dummy
    requires Callbacks(callbacks, dummy) && NeverCleared(callbacks, u) && NeverCleared(callbacks, v)
    ensures CalledBefore(Drain(qs, dummy, callbacks), v, u, events)
    decreases |callbacks|, Total(qs, NUMPRI)
  {
    hide Represents, ApplyActions, Total, CalledBefore, Called, Drain, Pop, AfterCall, NeverCleared, NotOn;
    var h := Highest(qs, NUMPRI);
    var slot := qs[h][|qs[h]| - 1];
    DifferentSlots(qs, dummy, mask, p, i, j);
    if slot.w == dummy {
      DummyRound(qs, h, dummy, mask, callbacks);
      SlotStaysInRound(qs, h, dummy, callbacks, p, i, u, events);
      SlotStaysInRound(qs, h, dummy, callbacks, p, j, v, events);
      UpperFirst(Pop(qs, h), dummy, mask, callbacks, p, i, u, j, v, events);
    } else if slot.w == u {
      SameSlot(qs, dummy, mask, p, i, h, |qs[h]| - 1);
    } else {
      var mask' := CallRound(qs, h, dummy, mask, callbacks);
      var next := AfterCall(qs, h, dummy, callbacks);
      SlotStaysInRound(qs, h, dummy, callbacks, p, i, u, events);
      if slot.w == v {
        SameSlot(qs, dummy, mask, p, j, h, |qs[h]| - 1);
        IsCalled(next, dummy, mask', Rest(callbacks), p, i, u, events);
        CalledFirst(Drain(next, dummy, Rest(callbacks)), Call(v, slot.events), v, u, events);
      } else {
        SlotStaysInRound(qs, h, dummy, callbacks, p, j, v, events);
        UpperFirst(next, dummy, mask', Rest(callbacks), p, i, u, j, v, events);
        CalledLater(Drain(next, dummy, Rest(callbacks)), Call(slot.w, slot.events), v, u, events);
      }
    }
  }

  lemma DifferentSlots(qs: Queues, dummy: Watcher, mask: Mask, p: nat, i: nat, j: nat)
    requires Represents(qs, dummy, mask) && p < NUMPRI && i < j < |qs[p]| && qs[p][i].w != dummy
    ensures qs[p][i].w != qs[p][j].w
  {
  }

  /** Watchers without a slot, each of them once. */
  ghost predicate AllNew(qs: Queues, ws: seq<Watcher>) {
    && |qs| == NUMPRI
    && (forall i :: 0 <= i < |ws| ==> ws[i].priority < NUMPRI && IndexOf(qs[ws[i].priority], ws[i]) == |qs[ws[i].priority]|)
    && (forall i, j :: 0 <= i < j < |ws| ==> ws[i] != ws[j])
  }

  /** Feeding a list of new watchers pushes them, the last one first. */
  lemma PushLast(qs: Queues, ws: seq<Watcher>, events: Events, dummy: Watcher)
    requires AllNew(qs, ws) && ws != []
    ensures var last, p := ws[|ws| - 1], ws[|ws| - 1].priority;
      var next := qs[p := qs[p] + [Slot(last, events)]];
      && AllNew(next, ws[..|ws| - 1])
      && ApplyActions(qs, Feeds(ws, events), dummy) == ApplyActions(next, Feeds(ws[..|ws| - 1], events), dummy)
  {
    var last, p, rest := ws[|ws| - 1], ws[|ws| - 1].priority, ws[..|ws| - 1];
    var next: Queues := qs[p := qs[p] + [Slot(last, events)]];
    assert ApplyAction(qs, Feed(last, events), dummy) == next;
    forall i | 0 <= i < |rest|
      ensures IndexOf(next[rest[i].priority], rest[i]) == |next[rest[i].priority]|
    {
      var q, r := qs[rest[i].priority], next[rest[i].priority];
      assert IndexOf(q, rest[i]) == |q|;
      assert forall k :: 0 <= k < |q| ==> q[k].w != rest[i];
      assert forall k :: 0 <= k < |r| ==> r[k].w != rest[i];
    }
  }

  /** Feeding in reverse puts every watcher above what was there before. */
  lemma {:induction false} FedAbove(qs: Queues, ws: seq<Watcher>, events: Events, dummy: Watcher, i: nat) returns (b: nat)
    requires AllNew(qs, ws) && i < |ws|
    ensures b >= |qs[ws[i].priority]| && Holds(ApplyActions(qs, Feeds(ws, events), dummy), ws[i].priority, b, ws[i], events)
    decreases |ws|
  {
    hide IndexOf, ApplyActions;
    var last, p, rest := ws[|ws| - 1], ws[|ws| - 1].priority, ws[..|ws| - 1];
    PushLast(qs, ws, events, dummy);
    var next: Queues := qs[p := qs[p] + [Slot(last, events)]];
    if i == |ws| - 1 {
      b := |qs[p]|;
      SlotStays(next, Feeds(rest, events), dummy, p, b, last, events);
    } else {
      b := FedAbove(next, rest, events, dummy, i);
    }
  }

  /** Of two watchers with one priority, feeding in reverse puts the one that is first in the list above the other. */
  lemma {:induction false} FedInReverse(qs: Queues, ws: seq<Watcher>, events: Events, dummy: Watcher, i: nat, j: nat) returns (a: nat, b: nat)
    requires AllNew(qs, ws) && i < j < |ws| && ws[i].priority == ws[j].priority
    ensures var t: Queues := ApplyActions(qs, Feeds(ws, events), dummy);
      a < b && Holds(t, ws[j].priority, a, ws[j], events) && Holds(t, ws[i].priority, b, ws[i], events)
    decreases |ws|
  {
    hide IndexOf, ApplyActions;
    var last, p, rest := ws[|ws| - 1], ws[|ws| - 1].priority, ws[..|ws| - 1];
    PushLast(qs, ws, events, dummy);
    var next: Queues := qs[p := qs[p] + [Slot(last, events)]];
    if j == |ws| - 1 {
      a := |qs[p]|;
      SlotStays(next, Feeds(rest, events), dummy, p, a, last, events);
      b := FedAbove(next, rest, events, dummy, i);
    } else {
      a, b := FedInReverse(next, rest, events, dummy, i, j);
    }
  }

  /** Clearing watchers without a slot changes nothing. */
  lemma {:induction false} ClearsDoNothing(qs: Queues, ws: seq<Watcher>, actions: seq<Action>, dummy: Watcher)
    requires AllNew(qs, ws)
    requires forall i :: 0 <= i < |actions| ==> actions[i].Clear? && actions[i].w in ws
    ensures ApplyActions(qs, actions, dummy) == qs
    decreases |actions|
  {
    if actions != [] {
      assert ApplyAction(qs, actions[0], dummy) == qs;
      ClearsDoNothing(qs, ws, actions[1..], dummy);
    }
  }

  lemma UnpendingIsNew(qs: Queues, dummy: Watcher, mask: Mask, ws: seq<Watcher>)
    requires Represents(qs, dummy, mask)
    requires forall i :: 0 <= i < |ws| ==> ws[i] !in mask && ws[i] != dummy && ws[i].priority < NUMPRI
    requires forall i, j :: 0 <= i < j < |ws| ==> ws[i] != ws[j]
    ensures AllNew(qs, ws)
  {
  }

  /** Timers that were not pending are called in the order in which they were taken, if they have one priority. */
  lemma CalledAsTaken(qs: Queues, dummy: Watcher, mask: Mask, fired: seq<Watcher>, callbacks: seq<seq<Action>>, i: nat, j: nat)
    requires |qs| == NUMPRI && Represents(qs, dummy, mask)
    requires AllNew(qs, fired) && dummy !in fired
    requires i <= j < |fired| && fired[i].priority == fired[j].priority
    requires Callbacks(callbacks, dummy) && NeverCleared(callbacks, fired[i]) && NeverCleared(callbacks, fired[j])
    ensures var log := Drain(ApplyActions(ApplyActions(qs, Stops(fired), dummy), Feeds(fired, TIMER_EVENT), dummy), dummy, callbacks);
      if i < j then CalledBefore(log, fired[i], fired[j], TIMER_EVENT) else Called(log, fired[i], TIMER_EVENT)
  {
    hide IndexOf, ApplyActions, Represents, CalledBefore, Called, Drain;
    ClearsDoNothing(qs, fired, Stops(fired), dummy);
    var fed: Queues := ApplyActions(qs, Feeds(fired, TIMER_EVENT), dummy);
    ActionsRefine(qs, dummy, mask, Feeds(fired, TIMER_EVENT));
    var mask' := ModelActions(mask, Feeds(fired, TIMER_EVENT));
    if i < j {
      var a, b := FedInReverse(qs, fired, TIMER_EVENT, dummy, i, j);
      UpperFirst(fed, dummy, mask', callbacks, fired[i].priority, a, fired[j], b, fired[i], TIMER_EVENT);
    } else {
      var b := FedAbove(qs, fired, TIMER_EVENT, dummy, i);
      IsCalled(fed, dummy, mask', callbacks, fired[i].priority, b, fired[i], TIMER_EVENT);
    }
  }

  /** A timer that is due and that no callback clears. */
  ghost predicate Due(live: map<Watcher, real>, now: real, callbacks: seq<seq<Action>>, w: Watcher) {
    w in live && live[w] < now && NeverCleared(callbacks, w)
  }

  /** All due timers are called, and among those of one priority the earlier deadline first. */
  ghost predicate FireInOrder(live: map<Watcher, real>, now: real, callbacks: seq<seq<Action>>, log: seq<Call>) {
    && (forall w :: w in live && Due(live, now, callbacks, w) ==> Called(log, w, TIMER_EVENT))
    && (forall v, u :: v in live && u in live && Due(live, now, callbacks, v) && Due(live, now, callbacks, u) ==>
          (v.priority == u.priority && live[v] < live[u] ==> CalledBefore(log, v, u, TIMER_EVENT)))
  }

  lemma IndexIn(fired: seq<Watcher>, w: Watcher) returns (i: nat)
    requires w in fired
    ensures i < |fired| && fired[i] == w
  {
    i :| 0 <= i < |fired| && fired[i] == w;
  }

  /** The calls made after the timers `fired` were taken. */
  function CallsAfter(qs: Queues, dummy: Watcher, stops: seq<Action>, fired: seq<Watcher>, callbacks: seq<seq<Action>>): seq<Call>
    requires |qs| == NUMPRI && CallbacksOk(callbacks)
    requires forall i :: 0 <= i < |stops| ==> stops[i].w.priority < NUMPRI
    requires forall i :: 0 <= i < |fired| ==> fired[i].priority < NUMPRI
  {
    Drain(ApplyActions(ApplyActions(qs, stops, dummy), Feeds(fired, TIMER_EVENT), dummy), dummy, callbacks)
  }

  lemma PairInOrder(qs: Queues, dummy: Watcher, mask: Mask, fired: seq<Watcher>, live: map<Watcher, real>, callbacks: seq<seq<Action>>, v: Watcher, u: Watcher)
    requires |qs| == NUMPRI && Represents(qs, dummy, mask)
    requires AllNew(qs, fired) && dummy !in fired && InOrder(fired, live)
    requires v in fired && u in fired && v.priority == u.priority
    requires Callbacks(callbacks, dummy)
    requires NeverCleared(callbacks, v) && NeverCleared(callbacks, u)
    ensures var log := CallsAfter(qs, dummy, Stops(fired), fired, callbacks);
      && (live[v] < live[u] ==> CalledBefore(log, v, u, TIMER_EVENT))
      && (v == u ==> Called(log, v, TIMER_EVENT))
  {
    hide Represents, IndexOf, CalledBefore, Called, Drain, ApplyActions, NeverCleared, CallbacksOk, NotOn;
    var i := IndexIn(fired, v);
    if v == u {
      CalledAsTaken(qs, dummy, mask, fired, callbacks, i, i);
    } else if live[v] < live[u] {
      var j := IndexIn(fired, u);
      CalledAsTaken(qs, dummy, mask, fired, callbacks, i, j);
    }
  }

  lemma TakenFireInOrder(qs: Queues, dummy: Watcher, mask: Mask, fired: seq<Watcher>, live: map<Watcher, real>, now: real, callbacks: seq<seq<Action>>)
    requires |qs| == NUMPRI && Represents(qs, dummy, mask)
    requires AllNew(qs, fired) && dummy !in fired
    requires InOrder(fired, live) && AllExpired(fired, live, now)
    requires Callbacks(callbacks, dummy)
    ensures FireInOrder(live, now, callbacks, CallsAfter(qs, dummy, Stops(fired), fired, callbacks))
  {
    hide Represents, IndexOf, InOrder, CalledBefore, Called, CallsAfter, NeverCleared, CallbacksOk, NotOn, Stops;
    var log := CallsAfter(qs, dummy, Stops(fired), fired, callbacks);
    forall v, u | v in live && u in live && Due(live, now, callbacks, v) && Due(live, now, callbacks, u) && v.priority == u.priority
      ensures live[v] < live[u] ==> CalledBefore(log, v, u, TIMER_EVENT)
      ensures v == u ==> Called(log, v, TIMER_EVENT)
    {
      PairInOrder(qs, dummy, mask, fired, live, callbacks, v, u);
    }
  }

  /** One round of the loop: makes the due timers pending and calls what is pending. */
  method ExpireAndInvoke(loop: TimerLoop, callbacks: seq<seq<Action>>) returns (log: seq<Call>)
    requires loop.Valid() && loop.RepeatsOk() && loop.rfeeds == []
    requires forall w :: w in loop.Live() && loop.Live()[w] < loop.now ==> w.pending == 0
    requires CallbacksOk(callbacks) && forall i :: 0 <= i < |callbacks| ==> ActionsOk(callbacks[i], loop.pq.watchers)
    modifies loop`timerCnt, loop`rfeeds, loop.timers, loop.known`active, loop.known`at, loop.pq`queues, loop.pq`pendingPri,
      loop.pq.watchers`pending, loop.pq.dummy`pending
    ensures loop.Valid() && loop.rfeeds == [] && forall p :: 0 <= p < NUMPRI ==> loop.pq.queues[p] == []
    ensures FireInOrder(old(loop.Live()), loop.now, callbacks, log)
  {
    hide TimerLoop.HeapValid, PendingQueues.SlotOk, After, Represents, AllNew, FireInOrder, Drain, ApplyActions;
    ghost var live, qs, mask := loop.Live(), loop.pq.queues, PendingMask(loop.pq);
    ValidRepresents(loop.pq);
    ghost var fired := loop.TimersReify();
    UnpendingIsNew(qs, loop.pq.dummy, mask, fired);
    TakenFireInOrder(qs, loop.pq.dummy, mask, fired, live, loop.now, callbacks);
    log := loop.pq.InvokePending(callbacks);
  }
}
