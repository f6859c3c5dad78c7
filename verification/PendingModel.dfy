/**
 * The pending stacks refine a simpler model: a map from each pending watcher to the events that
 * were fed for it. Every call takes a watcher of the highest priority out of the map.
 */
module PendingModel {
  import opened Watchers
  import opened Pending

  type Mask = map<Watcher, Events>

  /** The map holds exactly the watchers on the stacks, each with the events of its only slot. */
  ghost predicate Represents(qs: Queues, dummy: Watcher, mask: Mask) {
    && |qs| == NUMPRI
    && (forall p, i :: 0 <= p < NUMPRI && 0 <= i < |qs[p]| && qs[p][i].w != dummy ==>
          qs[p][i].w.priority == p && qs[p][i].w in mask && mask[qs[p][i].w] == qs[p][i].events)
    && (forall p, i, j :: 0 <= p < NUMPRI && 0 <= i < j < |qs[p]| && qs[p][i].w != dummy ==> qs[p][i].w != qs[p][j].w)
    && (forall w :: w in mask ==> w != dummy && w.priority < NUMPRI && exists i :: 0 <= i < |qs[w.priority]| && qs[w.priority][i].w == w)
  }

  /** The watchers whose `pending` field is set, with the events of the slot it points to. */
  ghost function PendingMask(pq: PendingQueues): (mask: Mask)
    requires pq.Valid()
    reads pq`queues, pq`watchers, pq.watchers`pending
  {
    map w | w in pq.watchers && w.pending != 0 :: assert pq.WatcherOk(w); pq.queues[w.priority][w.pending - 1].events
  }

  lemma ValidRepresents(pq: PendingQueues)
    requires pq.Valid()
    ensures Represents(pq.queues, pq.dummy, PendingMask(pq))
  {
    var qs: Queues, mask := pq.queues, PendingMask(pq);
    forall p, i | 0 <= p < NUMPRI && 0 <= i < |qs[p]| && qs[p][i].w != pq.dummy
      ensures qs[p][i].w.priority == p && qs[p][i].w in mask && mask[qs[p][i].w] == qs[p][i].events
      ensures qs[p][i].w.pending == i + 1
    {
      assert pq.SlotOk(p, i);
    }
    forall w | w in mask
      ensures w != pq.dummy && w.priority < NUMPRI && exists i :: 0 <= i < |qs[w.priority]| && qs[w.priority][i].w == w
    {
      assert pq.WatcherOk(w);
      assert qs[w.priority][w.pending - 1].w == w;
    }
  }

  function ModelAction(mask: Mask, action: Action): Mask {
    match action
    case Feed(w, events) => mask[w := (if w in mask then mask[w] else {}) + events]
    case Clear(w) => mask - {w}
  }

  function ModelActions(mask: Mask, actions: seq<Action>): Mask
    decreases |actions|
  {
    if actions == [] then mask else ModelActions(ModelAction(mask, actions[0]), actions[1..])
  }

  /**
   * A history of calls is legal if every call delivers exactly the events fed for its watcher since
   * that was last called or cleared, no pending watcher has a higher priority, and at the end
   * nothing is pending.
   */
  ghost predicate Legal(mask: Mask, log: seq<Call>, callbacks: seq<seq<Action>>)
    decreases |log|
  {
    if log == [] then mask == map[] else
    var c := log[0];
    && c.w in mask && mask[c.w] == c.events
    && (forall v :: v in mask ==> v.priority <= c.w.priority)
    && if callbacks == [] then Legal(mask - {c.w}, log[1..], [])
       else Legal(ModelActions(mask - {c.w}, callbacks[0]), log[1..], callbacks[1..])
  }

  lemma FeedRefines(qs: Queues, dummy: Watcher, mask: Mask, w: Watcher, events: Events)
    requires Represents(qs, dummy, mask) && w != dummy && w.priority < NUMPRI
    ensures Represents(ApplyAction(qs, Feed(w, events), dummy), dummy, ModelAction(mask, Feed(w, events)))
  {
    var p := w.priority;
    var q, i := qs[p], IndexOf(qs[p], w);
    var t: Queues := ApplyAction(qs, Feed(w, events), dummy);
    assert w in mask <==> i < |q|;
    assert t[p][i].w == w;
    forall v | v in mask && v != w
      ensures exists j :: 0 <= j < |t[v.priority]| && t[v.priority][j].w == v
    {
      var j :| 0 <= j < |qs[v.priority]| && qs[v.priority][j].w == v;
      assert t[v.priority][j].w == v;
    }
  }

  lemma ClearRefines(qs: Queues, dummy: Watcher, mask: Mask, w: Watcher)
    requires Represents(qs, dummy, mask) && w != dummy && w.priority < NUMPRI
    ensures Represents(ApplyAction(qs, Clear(w), dummy), dummy, ModelAction(mask, Clear(w)))
  {
    var p := w.priority;
    var t: Queues := ApplyAction(qs, Clear(w), dummy);
    forall v | v in mask && v != w
      ensures exists j :: 0 <= j < |t[v.priority]| && t[v.priority][j].w == v
    {
      var j :| 0 <= j < |qs[v.priority]| && qs[v.priority][j].w == v;
      assert t[v.priority][j].w == v;
    }
  }

  lemma PopRefines(qs: Queues, dummy: Watcher, mask: Mask, p: nat)
    requires Represents(qs, dummy, mask) && p < NUMPRI && qs[p] != []
    ensures var w := qs[p][|qs[p]| - 1].w;
      Represents(Pop(qs, p), dummy, if w == dummy then mask else mask - {w})
  {
    var t: Queues := Pop(qs, p);
    var w := qs[p][|qs[p]| - 1].w;
    forall v | v in mask && v != w
      ensures exists j :: 0 <= j < |t[v.priority]| && t[v.priority][j].w == v
    {
      var j :| 0 <= j < |qs[v.priority]| && qs[v.priority][j].w == v;
      assert t[v.priority][j].w == v;
    }
  }

  predicate NotOn(actions: seq<Action>, dummy: Watcher) {
    forall i :: 0 <= i < |actions| ==> actions[i].w != dummy
  }

  lemma {:induction false} ActionsRefine(qs: Queues, dummy: Watcher, mask: Mask, actions: seq<Action>)
    requires |qs| == NUMPRI && Represents(qs, dummy, mask) && NotOn(actions, dummy)
    requires forall i :: 0 <= i < |actions| ==> actions[i].w.priority < NUMPRI
    ensures Represents(ApplyActions(qs, actions, dummy), dummy, ModelActions(mask, actions))
    decreases |actions|
  {
    hide Represents;
    if actions != [] {
      match actions[0] {
        case Feed(w, events) => FeedRefines(qs, dummy, mask, w, events);
        case Clear(w) => ClearRefines(qs, dummy, mask, w);
      }
      ActionsRefine(ApplyAction(qs, actions[0], dummy), dummy, ModelAction(mask, actions[0]), actions[1..]);
    }
  }

  lemma TopIsUrgent(qs: Queues, dummy: Watcher, mask: Mask)
    requires Represents(qs, dummy, mask)
    ensures var p := Highest(qs, NUMPRI);
      if p < 0 then mask == map[]
      else
        var slot := qs[p][|qs[p]| - 1];
        slot.w != dummy ==>
          && slot.w in mask && mask[slot.w] == slot.events
          && forall v :: v in mask ==> v.priority <= slot.w.priority
  {
    var p := Highest(qs, NUMPRI);
    assert forall v :: v in mask ==> qs[v.priority] != [];
    if p < 0 {
      assert forall v :: v !in mask;
    }
  }

  /** Whatever the callbacks feed and clear, the calls made by the stacks are legal for the map. */
  lemma {:induction false} DrainIsLegal(qs: Queues, dummy: Watcher, mask: Mask, callbacks: seq<seq<Action>>)
    requires |qs| == NUMPRI && Represents(qs, dummy, mask)
    requires CallbacksOk(callbacks) && forall i :: 0 <= i < |callbacks| ==> NotOn(callbacks[i], dummy)
    ensures Legal(mask, Drain(qs, dummy, callbacks), callbacks)
    decreases |callbacks|, Total(qs, NUMPRI)
  {
    hide Represents;
    TopIsUrgent(qs, dummy, mask);
    var p := Highest(qs, NUMPRI);
    if p >= 0 {
      var slot, rest := qs[p][|qs[p]| - 1], Pop(qs, p);
      TotalAfterPop(qs, p, NUMPRI);
      PopRefines(qs, dummy, mask, p);
      if slot.w == dummy {
        DrainIsLegal(rest, dummy, mask, callbacks);
      } else if callbacks == [] {
        DrainIsLegal(rest, dummy, mask - {slot.w}, []);
      } else {
        ActionsRefine(rest, dummy, mask - {slot.w}, callbacks[0]);
        DrainIsLegal(ApplyActions(rest, callbacks[0], dummy), dummy, ModelActions(mask - {slot.w}, callbacks[0]), callbacks[1..]);
      }
    }
  }

  /** Invoking the pending watchers makes legal calls for what the watchers' own fields say is pending. */
  lemma InvokeIsLegal(pq: PendingQueues, callbacks: seq<seq<Action>>)
    requires pq.Valid() && CallbacksOk(callbacks)
    requires forall i :: 0 <= i < |callbacks| ==> ActionsOk(callbacks[i], pq.watchers)
    ensures Legal(PendingMask(pq), Drain(pq.queues, pq.dummy, callbacks), callbacks)
  {
    hide Represents, Legal, Drain;
    ValidRepresents(pq);
    DrainIsLegal(pq.queues, pq.dummy, PendingMask(pq), callbacks);
  }

  /** If the callbacks feed nothing, every pending watcher is called once, with its events, the urgent ones first. */
  lemma {:induction false} EachOnce(mask: Mask, log: seq<Call>)
    requires Legal(mask, log, [])
    ensures forall w :: w in mask ==> Call(w, mask[w]) in log
    ensures forall i :: 0 <= i < |log| ==> log[i].w in mask && mask[log[i].w] == log[i].events
    ensures forall i, j :: 0 <= i < j < |log| ==> log[i].w != log[j].w && log[j].w.priority <= log[i].w.priority
    decreases |log|
  {
    if log != [] {
      var rest := mask - {log[0].w};
      EachOnce(rest, log[1..]);
      forall w | w in mask
        ensures Call(w, mask[w]) in log
      {
        if w == log[0].w {
          assert log[0] == Call(w, mask[w]);
        } else {
          assert w in rest && Call(w, rest[w]) in log[1..];
        }
      }
    }
  }
}
