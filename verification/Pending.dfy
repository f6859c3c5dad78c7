/**
 * The pending queues: one stack of (watcher, events) slots for every priority, with a pointer
 * back from each watcher to its slot. The first half specifies the stacks on values, where a
 * watcher's slot is found by searching; the second half is the implementation.
 */
module Pending {
  import opened Watchers

  /** An event mask, as the set of the numbers of its bits: or-ing two masks is their union. */
  type Events = set<nat>

  datatype Slot = Slot(w: Watcher, events: Events)

  type Queues = seq<seq<Slot>>

  /** What a callback may do to the queues. */
  datatype Action = Feed(w: Watcher, events: Events) | Clear(w: Watcher)

  /** The first slot of a watcher, or the length of the stack if it has none. */
  function IndexOf(q: seq<Slot>, w: Watcher): (i: nat)
    ensures i <= |q|
    ensures i < |q| ==> q[i].w == w
    ensures forall j :: 0 <= j < i ==> q[j].w != w
  {
    if q == [] || q[0].w == w then 0 else 1 + IndexOf(q[1..], w)
  }

  function FeedQueue(q: seq<Slot>, w: Watcher, events: Events): seq<Slot> {
    var i := IndexOf(q, w);
    if i < |q| then q[i := Slot(w, q[i].events + events)] else q + [Slot(w, events)]
  }

  function ClearQueue(q: seq<Slot>, w: Watcher, dummy: Watcher): seq<Slot> {
    var i := IndexOf(q, w);
    if i < |q| then q[i := Slot(dummy, q[i].events)] else q
  }

  function ApplyAction(qs: Queues, action: Action, dummy: Watcher): Queues
    requires |qs| == NUMPRI && action.w.priority < NUMPRI
  {
    var p := action.w.priority;
    match action
    case Feed(w, events) => qs[p := FeedQueue(qs[p], w, events)]
    case Clear(w) => qs[p := ClearQueue(qs[p], w, dummy)]
  }

  predicate ActionsOk(actions: seq<Action>, watchers: set<Watcher>) {
    forall i :: 0 <= i < |actions| ==> actions[i].w in watchers && actions[i].w.priority < NUMPRI
  }

  function ApplyActions(qs: Queues, actions: seq<Action>, dummy: Watcher): (r: Queues)
    requires |qs| == NUMPRI
    requires forall i :: 0 <= i < |actions| ==> actions[i].w.priority < NUMPRI
    ensures |r| == NUMPRI
    decreases |actions|
  {
    if actions == [] then qs else ApplyActions(ApplyAction(qs, actions[0], dummy), actions[1..], dummy)
  }

  lemma {:induction false} ApplyActionsAppend(qs: Queues, actions: seq<Action>, action: Action, dummy: Watcher)
    requires |qs| == NUMPRI && action.w.priority < NUMPRI
    requires forall i :: 0 <= i < |actions| ==> actions[i].w.priority < NUMPRI
    ensures ApplyActions(qs, actions + [action], dummy) == ApplyAction(ApplyActions(qs, actions, dummy), action, dummy)
    decreases |actions|
  {
    if actions == [] {
      assert [action][1..] == [];
    } else {
      ApplyActionsAppend(ApplyAction(qs, actions[0], dummy), actions[1..], action, dummy);
      assert (actions + [action])[1..] == actions[1..] + [action];
    }
  }

  /** The highest priority below `n` with a slot on its stack, or -1. */
  function Highest(qs: Queues, n: nat): (p: int)
    requires n <= |qs|
    ensures -1 <= p < n
    ensures forall i :: p < i < n ==> qs[i] == []
    ensures p >= 0 ==> qs[p] != []
  {
    if n == 0 then -1 else if qs[n - 1] != [] then n - 1 else Highest(qs, n - 1)
  }

  /** Number of slots on the first `n` stacks. */
  function Total(qs: Queues, n: nat): nat
    requires n <= |qs|
  {
    if n == 0 then 0 else Total(qs, n - 1) + |qs[n - 1]|
  }

  function Pop(qs: Queues, p: nat): Queues
    requires p < |qs| && qs[p] != []
  {
    qs[p := qs[p][..|qs[p]| - 1]]
  }

  lemma {:induction false} TotalAfterPop(qs: Queues, p: nat, n: nat)
    requires p < |qs| && qs[p] != [] && n <= |qs|
    ensures Total(Pop(qs, p), n) == Total(qs, n) - if p < n then 1 else 0
  {
    if n > 0 {
      TotalAfterPop(qs, p, n - 1);
    }
  }

  datatype Call = Call(w: Watcher, events: Events)

  predicate CallbacksOk(callbacks: seq<seq<Action>>) {
    forall i, j :: 0 <= i < |callbacks| && 0 <= j < |callbacks[i]| ==> callbacks[i][j].w.priority < NUMPRI
  }

  /**
   * The calls made until all stacks are empty: always the top slot of the highest priority. The
   * n-th call runs the n-th list of actions, and later calls change nothing; a dummy slot is
   * popped and makes no call that does anything.
   */
  function Drain(qs: Queues, dummy: Watcher, callbacks: seq<seq<Action>>): seq<Call>
    requires |qs| == NUMPRI && CallbacksOk(callbacks)
    decreases |callbacks|, Total(qs, NUMPRI)
  {
    var p := Highest(qs, NUMPRI);
    if p < 0 then [] else
    var slot, rest := qs[p][|qs[p]| - 1], Pop(qs, p);
    TotalAfterPop(qs, p, NUMPRI);
    if slot.w == dummy then Drain(rest, dummy, callbacks)
    else if callbacks == [] then [Call(slot.w, slot.events)] + Drain(rest, dummy, [])
    else [Call(slot.w, slot.events)] + Drain(ApplyActions(rest, callbacks[0], dummy), dummy, callbacks[1..])
  }

  /** One round: the top slot of the highest priority is popped, and called unless it is a dummy. */
  lemma DrainTop(qs: Queues, p: nat, dummy: Watcher, callbacks: seq<seq<Action>>)
    requires |qs| == NUMPRI && CallbacksOk(callbacks)
    requires p < NUMPRI && qs[p] != [] && forall q :: p < q < NUMPRI ==> qs[q] == []
    ensures var slot, rest := qs[p][|qs[p]| - 1], Pop(qs, p);
      && Total(rest, NUMPRI) < Total(qs, NUMPRI)
      && Drain(qs, dummy, callbacks) == if slot.w == dummy then Drain(rest, dummy, callbacks)
         else if callbacks == [] then [Call(slot.w, slot.events)] + Drain(rest, dummy, [])
         else [Call(slot.w, slot.events)] + Drain(ApplyActions(rest, callbacks[0], dummy), dummy, callbacks[1..])
  {
    hide ApplyActions;
    TotalAfterPop(qs, p, NUMPRI);
    assert Highest(qs, NUMPRI) == p;
  }

  class PendingQueues {
    var queues: Queues
    var pendingPri: nat
    const dummy: Watcher
    /** The watchers that may ever be pending. */
    ghost var watchers: set<Watcher>

    ghost predicate SlotOk(p: nat, i: nat)
      requires p < |queues| && i < |queues[p]|
      reads this`queues, this`watchers, watchers`pending
    {
      var w := queues[p][i].w;
      w == dummy || (w in watchers && w.priority == p && w.pending == i + 1)
    }

    ghost predicate WatcherOk(w: Watcher)
      requires |queues| == NUMPRI
      reads this`queues, w`pending
    {
      && w.priority < NUMPRI
      && (w.pending != 0 ==> w.pending <= |queues[w.priority]| && queues[w.priority][w.pending - 1].w == w)
    }

    /** The events that a watcher will be called for. */
    ghost function EventsFor(w: Watcher): Events
      reads this`queues, w`pending
    {
      if w.priority < |queues| && 0 < w.pending <= |queues[w.priority]| then queues[w.priority][w.pending - 1].events else {}
    }

    /** Nothing has changed for the other watchers. */
    twostate predicate OthersKept(w: Watcher)
      reads this`queues, this`watchers, watchers`pending
    {
      watchers == old(watchers) && forall v :: v in watchers && v != w ==> EventsFor(v) == old(EventsFor(v))
    }

    ghost predicate Valid()
      reads this`queues, this`watchers, watchers`pending
    {
      && |queues| == NUMPRI
      && dummy !in watchers
      && (forall p, i :: 0 <= p < NUMPRI && 0 <= i < |queues[p]| ==> SlotOk(p, i))
      && (forall w :: w in watchers ==> WatcherOk(w))
    }

    constructor (dummy: Watcher)
      ensures Valid() && this.dummy == dummy && watchers == {}
      ensures forall p :: 0 <= p < NUMPRI ==> queues[p] == []
    {
      this.dummy := dummy;
      queues := seq(NUMPRI, _ => []);
      pendingPri := 0;
      watchers := {};
    }

    /** A watcher that is not pending becomes one that may be fed. */
    method AddWatcher(w: Watcher)
      requires Valid() && w != dummy && w.priority < NUMPRI && w.pending == 0
      modifies this`watchers
      ensures Valid() && watchers == old(watchers) + {w}
    {
      watchers := watchers + {w};
      forall p, i | 0 <= p < NUMPRI && 0 <= i < |queues[p]|
        ensures SlotOk(p, i)
      {
        assert old(SlotOk(p, i));
      }
    }

    lemma SlotFound(w: Watcher)
      requires Valid() && w in watchers
      ensures var q := queues[w.priority];
        IndexOf(q, w) == if w.pending != 0 then w.pending - 1 else |q|
    {
      var q, i := queues[w.priority], IndexOf(queues[w.priority], w);
      if i < |q| {
        assert SlotOk(w.priority, i);
      }
    }

    /** Makes a watcher pending, or adds to its pending events. */
    method FeedEvent(w: Watcher, revents: Events)
      requires Valid() && w in watchers
      modifies this`queues, this`pendingPri, w`pending
      ensures Valid() && pendingPri == NUMPRI - 1
      ensures queues == ApplyAction(old(queues), Feed(w, revents), dummy)
      ensures w.pending != 0 && EventsFor(w) == old(EventsFor(w)) + revents && OthersKept(w)
    {
      SlotFound(w);
      var pri := w.priority;
      if w.pending != 0 {
        var slot := queues[pri][w.pending - 1];
        queues := queues[pri := queues[pri][w.pending - 1 := Slot(slot.w, slot.events + revents)]];
      } else {
        w.pending := |queues[pri]| + 1;
        queues := queues[pri := queues[pri] + [Slot(w, revents)]];
      }
      pendingPri := NUMPRI - 1;
      forall p, i | 0 <= p < NUMPRI && 0 <= i < |queues[p]|
        ensures SlotOk(p, i)
      {
        assert i < |old(queues)[p]| ==> old(SlotOk(p, i));
      }
    }

    /** Makes sure a watcher is not called for the events it has pending, which it returns. */
    method ClearPending(w: Watcher) returns (revents: Events)
      requires Valid() && w in watchers
      modifies this`queues, w`pending
      ensures Valid() && w.pending == 0
      ensures queues == ApplyAction(old(queues), Clear(w), dummy)
      ensures revents == if old(w.pending) != 0 then old(queues)[w.priority][old(w.pending) - 1].events else {}
      ensures old(w.pending) == 0 ==> queues == old(queues)
      ensures EventsFor(w) == {} && OthersKept(w)
    {
      SlotFound(w);
      revents := {};
      if w.pending != 0 {
        var pri, i := w.priority, w.pending - 1;
        revents := queues[pri][i].events;
        queues := queues[pri := queues[pri][i := Slot(dummy, revents)]];
        w.pending := 0;
      }
      forall p, i | 0 <= p < NUMPRI && 0 <= i < |queues[p]|
        ensures SlotOk(p, i)
      {
        assert old(SlotOk(p, i));
      }
    }

    /** Takes the top slot off a stack; its watcher is not pending any more. */
    method PopTop(p: nat) returns (slot: Slot)
      requires Valid() && p < NUMPRI && queues[p] != []
      modifies this`queues, queues[p][|queues[p]| - 1].w`pending
      ensures Valid() && queues == Pop(old(queues), p)
      ensures slot == old(queues)[p][|old(queues)[p]| - 1]
      ensures slot.w == dummy || slot.w in watchers
    {
      var n := |queues[p]| - 1;
      slot := queues[p][n];
      assert SlotOk(p, n);
      queues := queues[p := queues[p][..n]];
      slot.w.pending := 0;
      forall q, i | 0 <= q < NUMPRI && 0 <= i < |queues[q]|
        ensures SlotOk(q, i)
      {
        assert old(SlotOk(q, i));
      }
    }

    ghost predicate SameSizes(before: Queues)
      requires |queues| == |before| == NUMPRI
      reads this`queues
    {
      forall p :: 0 <= p < NUMPRI ==> |queues[p]| == |before[p]|
    }

    /** What a callback does. Only a feed puts the next call back to the highest priority. */
    method Perform(actions: seq<Action>)
      requires Valid() && ActionsOk(actions, watchers)
      modifies this`queues, this`pendingPri, watchers`pending
      ensures Valid() && watchers == old(watchers)
      ensures queues == ApplyActions(old(queues), actions, dummy)
      ensures pendingPri == NUMPRI - 1 || (pendingPri == old(pendingPri) && SameSizes(old(queues)))
    {
      ghost var start := queues;
      assert actions[0..] == actions;
      for i := 0 to |actions|
        invariant Valid()
        invariant ApplyActions(queues, actions[i..], dummy) == ApplyActions(start, actions, dummy)
        invariant pendingPri == NUMPRI - 1 || (pendingPri == old(pendingPri) && SameSizes(old(queues)))
      {
        assert actions[i..][1..] == actions[i + 1..];
        match actions[i] {
          case Feed(w, events) =>
            FeedEvent(w, events);
          case Clear(w) =>
            var revents := ClearPending(w);
        }
      }
    }

    /** The remaining work of InvokePending, for termination: a call that may still act, a slot, a priority. */
    ghost predicate Less(todo: nat, total: nat, pri: nat, todo0: nat, total0: nat, pri0: nat) {
      todo < todo0 || (todo == todo0 && (total < total0 || (total == total0 && pri <= pri0)))
    }

    ghost predicate EmptyFrom(p: nat)
      requires |queues| == NUMPRI
      reads this`queues
    {
      forall q :: p <= q < NUMPRI ==> queues[q] == []
    }

    /** The body of the inner loop: calls the top watcher of the current priority. */
    method InvokeTop(callbacks: seq<seq<Action>>) returns (calls: seq<Call>, rest: seq<seq<Action>>)
      requires Valid() && pendingPri < NUMPRI && queues[pendingPri] != [] && EmptyFrom(pendingPri + 1)
      requires CallbacksOk(callbacks) && forall i :: 0 <= i < |callbacks| ==> ActionsOk(callbacks[i], watchers)
      modifies this`queues, this`pendingPri, watchers`pending, dummy`pending
      ensures Valid() && pendingPri < NUMPRI && EmptyFrom(pendingPri + 1)
      ensures rest == callbacks || (callbacks != [] && rest == callbacks[1..])
      ensures CallbacksOk(rest)
      ensures calls + Drain(queues, dummy, rest) == Drain(old(queues), dummy, callbacks)
      ensures |rest| < |callbacks| || (rest == callbacks && pendingPri == old(pendingPri) && Total(queues, NUMPRI) < Total(old(queues), NUMPRI))
    {
      hide ApplyActions, Drain, Total;
      DrainTop(queues, pendingPri, dummy, callbacks);
      calls, rest := [], callbacks;
      assert SlotOk(pendingPri, |queues[pendingPri]| - 1);
      var slot := PopTop(pendingPri);
      if slot.w != dummy {
        calls := [Call(slot.w, slot.events)];
        if callbacks != [] {
          rest := callbacks[1..];
          Perform(callbacks[0]);
        }
      }
    }

    /** Calls all pending watchers, also those that the callbacks make pending. */
    method InvokePending(callbacks: seq<seq<Action>>) returns (log: seq<Call>)
      requires Valid() && CallbacksOk(callbacks)
      requires forall i :: 0 <= i < |callbacks| ==> ActionsOk(callbacks[i], watchers)
      modifies this`queues, this`pendingPri, watchers`pending, dummy`pending
      ensures Valid()
      ensures log == Drain(old(queues), dummy, callbacks)
      ensures forall p :: 0 <= p < NUMPRI ==> queues[p] == []
    {
      log := [];
      var todo := callbacks;
      ghost var all := Drain(queues, dummy, callbacks);
      pendingPri := NUMPRI;
      while pendingPri > 0
        invariant Valid() && pendingPri <= NUMPRI && EmptyFrom(pendingPri)
        invariant CallbacksOk(todo) && forall i :: 0 <= i < |todo| ==> ActionsOk(todo[i], watchers)
        invariant log + Drain(queues, dummy, todo) == all
        decreases |todo|, Total(queues, NUMPRI), pendingPri
      {
        pendingPri := pendingPri - 1;
        ghost var todo0, total0, pri0 := |todo|, Total(queues, NUMPRI), pendingPri;
        while queues[pendingPri] != []
          invariant Valid() && pendingPri < NUMPRI && EmptyFrom(pendingPri + 1)
          invariant CallbacksOk(todo) && forall i :: 0 <= i < |todo| ==> ActionsOk(todo[i], watchers)
          invariant log + Drain(queues, dummy, todo) == all
          invariant Less(|todo|, Total(queues, NUMPRI), pendingPri, todo0, total0, pri0)
          decreases |todo|, Total(queues, NUMPRI)
        {
          var calls;
          calls, todo := InvokeTop(todo);
          log := log + calls;
        }
      }
    }
  }
}
